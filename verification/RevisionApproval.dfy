/**
 What approval is worth. Its check is made once, when a request reads the workspace,
 and never for a job: afterwards jobs still write, and so do requests that were
 already under way.
 */
module RevisionApproval {
  import opened Revisions
  import opened RevisionTheorems
  import opened RevisionCommits

  predicate IsStopped(s: State, r: ReqId) {
    r in s.reqs && s.reqs[r].pc.Stopped?
  }

  predicate IsInFlight(s: State, r: ReqId) {
    r in s.reqs && !IsOver(s.reqs[r])
  }

  lemma {:induction false} ApprovedStays(ss: seq<State>, evs: seq<Event>, i: nat, j: nat)
    requires IsPath(ss, evs) && i <= j <= |evs| && ss[i].ws.approved
    ensures ss[j].ws.approved
    decreases j - i
  {
    if i < j {
      ApprovedStays(ss, evs, i, j - 1);
      assert StepAt(ss, evs, j - 1);
    }
  }

  /** Whoever reads the workspace after its approval writes nothing, unless it is a job. */
  lemma ApprovedRefusesReaders(ss: seq<State>, evs: seq<Event>, i: nat, j: nat, n: nat)
    requires IsPath(ss, evs) && i <= j < n <= |evs| && ss[i].ws.approved
    requires evs[j].Begin? && !evs[j].kind.Generate?
    ensures IsStopped(ss[n], evs[j].r)
  {
    ApprovedStays(ss, evs, i, j);
    assert StepAt(ss, evs, j);
    RequestStays(ss, evs, j + 1, n, evs[j].r);
  }

  /** A request that begins on an approved workspace can still commit if and only if it is a job that
      finds the workspace. */
  lemma ApprovedBeginnerCommitsIff(ss: seq<State>, evs: seq<Event>, n: nat)
    requires IsRun(ss, evs) && n < |evs| && ss[n].ws.approved && evs[n].Begin?
    ensures CanCommit(ss[n + 1], evs[n].r) <==> evs[n].kind.Generate? && ss[n].ws.present
  {
    hide CanCommit;
    assert StepAt(ss, evs, n);
    CanCommitIff(ss, evs, n + 1, evs[n].r);
  }

  /** After an approval, a revision comes from a job or from a request under way at the approval. */
  lemma ApprovedHistoryGrowsBy(ss: seq<State>, evs: seq<Event>, i: nat, k: nat)
    requires IsRun(ss, evs) && i <= k < |evs| && ss[i].ws.approved
    requires ss[k + 1].ws.present && ss[k + 1].ws.log != ss[k].ws.log
    ensures evs[k].Step? && Holds(ss[k], evs[k].r)
    ensures ss[k + 1].ws.log == ss[k].ws.log + [ss[k].reqs[evs[k].r].pc.id]
    ensures ss[k].reqs[evs[k].r].kind.Generate? || IsInFlight(ss[i], evs[k].r)
  {
    assert StepAt(ss, evs, k);
    var r := evs[k].r;
    if r in ss[i].reqs {
      RequestStays(ss, evs, i, k, r);
    } else {
      var j := BegunAt(ss, evs, i, k, r);
      if !evs[j].kind.Generate? {
        ApprovedRefusesReaders(ss, evs, i, j, k);
      }
    }
  }

  // ---- when an approved workspace is safe from everything but jobs ------------------------

  /** `r` has not committed in `s`, is no job, and has committed in `s'`. */
  ghost predicate CommitsUnlikeAJob(s: State, s': State, r: ReqId) {
    Reaches(s, s') && HasCommitted(s', r) && !HasCommitted(s, r) && !s'.reqs[r].kind.Generate?
  }

  /** A route, not a job, that is under way and can still commit. */
  predicate IsPendingRoute(s: State, r: ReqId) {
    IsViable(s, r) && IsInFlight(s, r) && !s.reqs[r].kind.Generate?
  }

  lemma PendingRouteCommits(s: State, r: ReqId) returns (s': State)
    requires Inv(s) && IsPendingRoute(s, r)
    ensures CommitsUnlikeAJob(s, s', r)
  {
    ViableCommits(s, r);
    s' :| Reaches(s, s') && HasCommitted(s', r);
    var ss, evs :| LeadsFrom(ss, evs, s, s');
    hide Inv, IsViable;
    RequestStays(ss, evs, 0, |evs|, r);
  }

  lemma CommitterWasPending(s: State, s': State, r: ReqId)
    requires Inv(s) && s.ws.approved && CommitsUnlikeAJob(s, s', r)
    ensures IsPendingRoute(s, r)
  {
    hide Inv, IsViable;
    var ss, evs :| LeadsFrom(ss, evs, s, s');
    if r in s.reqs {
      RequestStays(ss, evs, 0, |evs|, r);
      assert CanCommit(s, r) by { assert Reaches(s, s') && HasCommitted(s', r); }
      CanCommitIffViable(s, r);
    } else {
      var j := BegunAt(ss, evs, 0, |evs|, r);
      ApprovedRefusesReaders(ss, evs, 0, j, |evs|);
    }
  }

  /** An approved workspace can still be changed by something other than a job if and only if a route
      that can still commit is under way; by `ApprovedRefusesReaders` it read the workspace before. */
  lemma ApprovedStillChangesIff(ss: seq<State>, evs: seq<Event>, n: nat)
    requires IsRun(ss, evs) && n <= |evs| && ss[n].ws.approved
    ensures (exists s', r :: CommitsUnlikeAJob(ss[n], s', r)) <==> (exists r <- ss[n].reqs :: IsPendingRoute(ss[n], r))
  {
    hide Inv, CommitsUnlikeAJob;
    RunInv(ss, evs, n);
    if r :| r in ss[n].reqs && IsPendingRoute(ss[n], r) {
      var s' := PendingRouteCommits(ss[n], r);
    }
    if s', r :| CommitsUnlikeAJob(ss[n], s', r) {
      CommitterWasPending(ss[n], s', r);
      assert r in ss[n].reqs;
    }
  }
}
