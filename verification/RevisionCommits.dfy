/**
 Which requests can still commit a revision: the exact condition in every
 reachable state. Approval takes no part in it once a request has begun.
 */
module RevisionCommits {
  import opened Options
  import FreshNames
  import opened Revisions
  import opened RevisionTheorems

  predicate HasCommitted(s: State, r: ReqId) {
    r in s.reqs && s.reqs[r].pc.Done?
  }

  ghost predicate LeadsFrom(ss: seq<State>, evs: seq<Event>, s: State, s': State) {
    IsPath(ss, evs) && ss[0] == s && ss[|evs|] == s'
  }

  ghost predicate Reaches(s: State, s': State) {
    exists ss, evs :: LeadsFrom(ss, evs, s, s')
  }

  /** It has committed, or some continuation lets it. */
  ghost predicate CanCommit(s: State, r: ReqId) {
    exists s' :: Reaches(s, s') && HasCommitted(s', r)
  }

  predicate IsHeld(s: State, id: Id) {
    exists o <- s.reqs :: Holds(s, o) && s.reqs[o].pc.id == id
  }

  /** The document can be found: a restore finds its source now, or when a request now under way or yet
      to come commits under that id; a job's base is still the current revision. */
  predicate CanRead(s: State, base: Id, kind: Kind) {
    match kind
    case Save(_, _) => false
    case Assist(_) => true
    case Restore(source) => source in s.ws.rows || source >= s.ws.nextId || IsHeld(s, source)
    case Generate(_) => base == s.ws.current
  }

  /** What it takes for `r` to commit. */
  predicate IsViable(s: State, r: ReqId) {
    r in s.reqs &&
    match s.reqs[r].pc
    case Done(_) => true
    case Stopped => false
    case AtRevision(base) => s.ws.present && CanRead(s, base, s.reqs[r].kind)
    case AtInsert(_, _, number) => s.ws.present && number == |s.ws.log| + 1
    case _ => s.ws.present
  }

  // ---- reaching ---------------------------------------------------------------------------

  lemma ReachesSelf(s: State)
    ensures Reaches(s, s)
  {
    assert LeadsFrom([s], [], s, s);
  }

  lemma ReachesNext(s: State, ev: Event)
    requires Enabled(s, ev)
    ensures Reaches(s, Next(s, ev))
  {
    var ss, evs := [s, Next(s, ev)], [ev];
    assert StepAt(ss, evs, 0);
    assert LeadsFrom(ss, evs, s, Next(s, ev));
  }

  lemma ReachesFurther(s: State, t: State, u: State)
    requires Reaches(s, t) && Reaches(t, u)
    ensures Reaches(s, u)
  {
    var ss, evs :| LeadsFrom(ss, evs, s, t);
    var ts, fvs :| LeadsFrom(ts, fvs, t, u);
    var all, events := ss + ts[1..], evs + fvs;
    forall i | 0 <= i < |events|
      ensures StepAt(all, events, i)
    {
      if i < |evs| {
        assert StepAt(ss, evs, i);
      } else {
        assert StepAt(ts, fvs, i - |evs|);
      }
    }
    assert LeadsFrom(all, events, s, u);
  }

  lemma CommitsAfter(s: State, t: State, r: ReqId)
    requires Reaches(s, t) && CanCommit(t, r)
    ensures CanCommit(s, r)
  {
    hide Reaches;
    var u :| Reaches(t, u) && HasCommitted(u, r);
    ReachesFurther(s, t, u);
  }

  lemma CommitsAfterStep(s: State, ev: Event, r: ReqId)
    requires Enabled(s, ev) && CanCommit(Next(s, ev), r)
    ensures CanCommit(s, r)
  {
    hide Reaches, CanCommit;
    ReachesNext(s, ev);
    CommitsAfter(s, Next(s, ev), r);
  }

  // ---- a viable request commits -----------------------------------------------------------

  ghost predicate NobodyElseHolds(s: State, r: ReqId) {
    forall o :: Holds(s, o) ==> o == r
  }

  lemma CommittedCommits(s: State, r: ReqId)
    requires HasCommitted(s, r)
    ensures CanCommit(s, r)
  {
    ReachesSelf(s);
  }

  lemma HolderCommits(s: State, r: ReqId)
    requires Inv(s) && Holds(s, r)
    ensures CanCommit(s, r)
  {
    hide CanCommit, Inv;
    CommittedCommits(Next(s, Step(r, None)), r);
    CommitsAfterStep(s, Step(r, None), r);
  }

  lemma InserterCommits(s: State, r: ReqId)
    requires Inv(s) && IsViable(s, r) && s.reqs[r].pc.AtInsert? && NobodyElseHolds(s, r)
    ensures CanCommit(s, r)
  {
    var ev := Step(r, None);
    var s' := Next(s, ev);
    FreeNumberIsNext(s.ws, s.reqs[r].pc.number);
    InvPreserved(s, ev);
    hide CanCommit, Inv;
    assert Holds(s', r);
    HolderCommits(s', r);
    CommitsAfterStep(s, ev, r);
  }

  lemma CounterCommits(s: State, r: ReqId)
    requires Inv(s) && IsViable(s, r) && s.reqs[r].pc.AtNumber? && NobodyElseHolds(s, r)
    ensures CanCommit(s, r)
  {
    var ev := Step(r, Some(s.ws.current));
    CurrentIsLatest(s.ws);
    LatestIsTop(s.ws, Some(s.ws.current));
    var s' := Next(s, ev);
    InvPreserved(s, ev);
    hide CanCommit, Inv;
    assert forall o :: Holds(s', o) ==> Holds(s, o);
    InserterCommits(s', r);
    CommitsAfterStep(s, ev, r);
  }

  lemma OwnerCommits(s: State, r: ReqId)
    requires Inv(s) && IsViable(s, r) && s.reqs[r].pc.AtOwned? && NobodyElseHolds(s, r)
    ensures CanCommit(s, r)
  {
    hide CanCommit, Inv, Follows, NumberTaken;
    var ev := Step(r, None);
    var s' := Next(s, ev);
    InvPreserved(s, ev);
    assert forall o :: Holds(s', o) ==> Holds(s, o);
    CounterCommits(s', r);
    CommitsAfterStep(s, ev, r);
  }

  /** What it reads is there. */
  lemma ReaderCommits(s: State, r: ReqId)
    requires Inv(s) && IsViable(s, r) && s.reqs[r].pc.AtRevision? && NobodyElseHolds(s, r)
    requires s.reqs[r].kind.Restore? ==> s.reqs[r].kind.source in s.ws.rows
    ensures CanCommit(s, r)
  {
    var ev := Step(r, None);
    var s' := Next(s, ev);
    RequestIsOk(s, r);
    CurrentIsThere(s.ws);
    InvPreserved(s, ev);
    hide CanCommit, Inv;
    assert forall o :: Holds(s', o) ==> Holds(s, o);
    if s.reqs[r].kind.Generate? {
      InserterCommits(s', r);
    } else {
      OwnerCommits(s', r);
    }
    CommitsAfterStep(s, ev, r);
  }

  /** A job that starts afresh inserts the next number. */
  lemma JobInserts(s: State, f: ReqId) returns (s': State)
    requires Inv(s) && s.ws.present && f !in s.reqs && forall o :: !Holds(s, o)
    ensures Reaches(s, s') && Inv(s') && s'.ws == s.ws.(nextId := s.ws.nextId + 1)
    ensures f in s'.reqs && s'.reqs == s.reqs[f := s'.reqs[f]]
    ensures Holds(s', f) && s'.reqs[f].pc.id == s.ws.nextId
  {
    hide Inv, Reaches;
    var s2 := JobCounts(s, f);
    JobIsAlone(s, s2, f);
    InvPreserved(s2, Step(f, None));
    s' := Next(s2, Step(f, None));
    ReachesNext(s2, Step(f, None));
    ReachesFurther(s, s2, s');
    assert s'.reqs == s.reqs[f := s'.reqs[f]];
  }

  lemma JobCounts(s: State, f: ReqId) returns (s': State)
    requires Inv(s) && s.ws.present && f !in s.reqs
    ensures Reaches(s, s') && Inv(s') && s'.ws == s.ws
    ensures s'.reqs == s.reqs[f := Request(Generate(""), AtInsert(s.ws.current, "", |s.ws.log| + 1))]
  {
    hide Inv, Reaches, Next, Enabled;
    var s1 := JobBegins(s, f);
    JobReads(s, s1, f);
    s' := Next(s1, Step(f, None));
    InvPreserved(s1, Step(f, None));
    ReachesNext(s1, Step(f, None));
    ReachesFurther(s, s1, s');
  }

  lemma JobBegins(s: State, f: ReqId) returns (s': State)
    requires Inv(s) && s.ws.present && f !in s.reqs
    ensures Reaches(s, s') && Inv(s')
    ensures s' == State(s.ws, s.reqs[f := Request(Generate(""), AtRevision(s.ws.current))])
  {
    hide Inv, Reaches;
    s' := Next(s, Begin(f, Generate("")));
    InvPreserved(s, Begin(f, Generate("")));
    ReachesNext(s, Begin(f, Generate("")));
  }

  lemma JobReads(s: State, s': State, f: ReqId)
    requires Inv(s) && s.ws.present && f !in s.reqs
    requires s' == State(s.ws, s.reqs[f := Request(Generate(""), AtRevision(s.ws.current))])
    ensures Enabled(s', Step(f, None))
    ensures Next(s', Step(f, None)) ==
            State(s.ws, s.reqs[f := Request(Generate(""), AtInsert(s.ws.current, "", |s.ws.log| + 1))])
  {
    CurrentIsThere(s.ws);
    hide Inv, HistoryOk, NumberTaken, IsLatest;
    assert s'.reqs[f := Request(Generate(""), AtInsert(s.ws.current, "", |s.ws.log| + 1))] ==
        s.reqs[f := Request(Generate(""), AtInsert(s.ws.current, "", |s.ws.log| + 1))];
  }

  lemma JobIsAlone(s: State, s': State, f: ReqId)
    requires Inv(s') && s'.ws == s.ws && s.ws.present && forall o :: !Holds(s, o)
    requires s'.reqs == s.reqs[f := Request(Generate(""), AtInsert(s.ws.current, "", |s.ws.log| + 1))]
    ensures Enabled(s', Step(f, None)) && !NumberTaken(s'.ws.rows, |s.ws.log| + 1)
  {
    FreeNumberIsNext(s.ws, |s.ws.log| + 1);
    hide Inv, HistoryOk, NumberTaken;
    assert forall o :: Holds(s', o) ==> Holds(s, o);
  }

  /** A restore whose source has been committed meanwhile. */
  lemma SourceCommitted(s: State, o: ReqId, r: ReqId)
    requires Inv(s) && s.ws.present && Holds(s, o) && r in s.reqs && s.reqs[r].pc.AtRevision?
    requires s.reqs[r].kind.Restore? && s.reqs[r].kind.source == s.reqs[o].pc.id
    ensures CanCommit(s, r)
  {
    hide CanCommit, Inv;
    var ev := Step(o, None);
    InvPreserved(s, ev);
    OnlyOneHeld(s, o);
    var s' := Next(s, ev);
    assert forall p :: Holds(s', p) ==> Holds(s, p) && p != o;
    ReaderCommits(s', r);
    CommitsAfterStep(s, ev, r);
  }

  /** A restore that waits for an id not drawn yet: other requests draw ids until one commits under it. */
  lemma {:induction false} FutureSourceCommits(s: State, r: ReqId)
    requires Inv(s) && s.ws.present && r in s.reqs && s.reqs[r].pc.AtRevision? && forall o :: !Holds(s, o)
    requires s.reqs[r].kind.Restore? && s.reqs[r].kind.source >= s.ws.nextId
    ensures CanCommit(s, r)
    decreases s.reqs[r].kind.source - s.ws.nextId
  {
    hide CanCommit, Inv, Reaches;
    var f := FreshNames.Fresh(s.reqs.Keys);
    assert f !in s.reqs;
    var t := JobInserts(s, f);
    if s.reqs[r].kind.source == s.ws.nextId {
      SourceCommitted(t, f, r);
    } else {
      var u := Next(t, Abort(f));
      InvPreserved(t, Abort(f));
      OnlyOneHeld(t, f);
      assert forall o :: Holds(u, o) ==> Holds(t, o) && o != f;
      FutureSourceCommits(u, r);
      CommitsAfterStep(t, Abort(f), r);
    }
    CommitsAfter(s, t, r);
  }

  lemma OnlyOneHeld(s: State, o: ReqId)
    requires Inv(s) && Holds(s, o)
    ensures forall p :: Holds(s, p) ==> p == o
  {
  }

  lemma ViableCommitsAlone(s: State, r: ReqId)
    requires Inv(s) && IsViable(s, r) && NobodyElseHolds(s, r)
    ensures CanCommit(s, r)
  {
    hide CanCommit, Inv;
    var q := s.reqs[r];
    match q.pc
    case AtRevision(_) =>
      if q.kind.Restore? && q.kind.source !in s.ws.rows {
        assert forall o :: !Holds(s, o);
        FutureSourceCommits(s, r);
      } else {
        ReaderCommits(s, r);
      }
    case AtOwned(_, _) => OwnerCommits(s, r);
    case AtNumber(_, _) => CounterCommits(s, r);
    case AtInsert(_, _, _) => InserterCommits(s, r);
    case AtCommit(_, _) => HolderCommits(s, r);
    case Done(_) => CommittedCommits(s, r);
  }

  lemma ViableCommits(s: State, r: ReqId)
    requires Inv(s) && IsViable(s, r)
    ensures CanCommit(s, r)
  {
    hide CanCommit, Inv;
    if NobodyElseHolds(s, r) {
      ViableCommitsAlone(s, r);
    } else {
      var o :| Holds(s, o) && o != r;
      OnlyOneHeld(s, o);
      var q := s.reqs[r];
      if q.pc.AtRevision? && q.kind.Restore? && q.kind.source == s.reqs[o].pc.id {
        SourceCommitted(s, o, r);
      } else {
        var ev := Abort(o);
        InvPreserved(s, ev);
        assert forall p :: Holds(Next(s, ev), p) ==> Holds(s, p) && p != o;
        ViableCommitsAlone(Next(s, ev), r);
        CommitsAfterStep(s, ev, r);
      }
    }
  }

  // ---- a request that is not viable never commits -----------------------------------------

  lemma HeldAfter(s: State, ev: Event, id: Id)
    requires Inv(s) && Enabled(s, ev) && IsHeld(Next(s, ev), id)
    ensures IsHeld(s, id) || id == s.ws.nextId
  {
    hide HistoryOk, RequestsOk, NumberTaken;
    var s' := Next(s, ev);
    var o :| o in s'.reqs && Holds(s', o) && s'.reqs[o].pc.id == id;
    if Holds(s, o) {
      assert s.reqs[o] == s'.reqs[o];
    }
  }

  /** The mover itself. */
  lemma UnviableMover(s: State, r: ReqId, latest: Option<Id>)
    requires Inv(s) && Enabled(s, Step(r, latest)) && !IsViable(s, r)
    ensures !IsViable(Next(s, Step(r, latest)), r)
  {
    if s.ws.present {
      UnviableMoverPresent(s, r, latest);
    } else {
      hide NumberedAt, RequestsOk;
      assert s.ws.rows == map[] && !Holds(s, r);
    }
  }

  lemma UnviableMoverPresent(s: State, r: ReqId, latest: Option<Id>)
    requires Inv(s) && Enabled(s, Step(r, latest)) && !IsViable(s, r) && s.ws.present
    ensures !IsViable(Next(s, Step(r, latest)), r)
  {
    if s.reqs[r].pc.AtInsert? {
      LateInsertStops(s, r, latest);
    } else {
      LateReadEnds(s, r, latest);
    }
    hide Inv, Next, IsHeld;
  }

  lemma LateInsertStops(s: State, r: ReqId, latest: Option<Id>)
    requires Inv(s) && Enabled(s, Step(r, latest)) && !IsViable(s, r) && s.ws.present && s.reqs[r].pc.AtInsert?
    ensures Next(s, Step(r, latest)).reqs[r].pc.Stopped?
  {
    var pc := s.reqs[r].pc;
    RequestIsOk(s, r);
    NumberIsBounded(s.ws, pc.base);
    FreeNumberIsNext(s.ws, pc.number);
    hide HistoryOk, RequestsOk, OneHolder, NumberTaken;
  }

  lemma LateReadEnds(s: State, r: ReqId, latest: Option<Id>)
    requires Inv(s) && Enabled(s, Step(r, latest)) && !IsViable(s, r) && s.ws.present && !s.reqs[r].pc.AtInsert?
    ensures !IsViable(Next(s, Step(r, latest)), r)
  {
    var q := s.reqs[r];
    assert q.pc.AtRevision?;
    RequestIsOk(s, r);
    OnlyCurrentIsLast(s.ws, q.pc.base);
    hide HistoryOk, RequestsOk, OneHolder, NumberTaken, Holds;
  }

  lemma OnlyCurrentIsLast(ws: Workspace, id: Id)
    requires HistoryOk(ws) && ws.present && id in ws.rows
    ensures ws.rows[id].number <= |ws.log| && (ws.rows[id].number == |ws.log| ==> id == ws.current)
  {
    hide NumberedAt;
    NumberIsBounded(ws, id);
  }

  /** A bystander. */
  lemma UnviableBystander(s: State, ev: Event, r: ReqId)
    requires Inv(s) && Enabled(s, ev) && r in s.reqs && !IsViable(s, r)
    requires ev.Begin? || ev.Step? || ev.Abort? ==> ev.r != r
    ensures r in Next(s, ev).reqs && !IsViable(Next(s, ev), r)
  {
    var s', q := Next(s, ev), s.reqs[r];
    assert s'.reqs[r] == q;
    if s.ws.present && s'.ws.present {
      RequestIsOk(s, r);
      RowsAfter(s, ev);
      if q.pc.AtRevision? && q.kind.Restore? && IsHeld(s', q.kind.source) {
        HeldAfter(s, ev, q.kind.source);
      }
    }
  }

  /** What one event can do to the rows: nothing, or the commit of a held row under a new id. */
  lemma RowsAfter(s: State, ev: Event)
    requires Inv(s) && Enabled(s, ev) && Next(s, ev).ws.present
    ensures var ws, ws' := s.ws, Next(s, ev).ws;
      && ws.present && ws.nextId <= ws'.nextId && |ws.log| <= |ws'.log|
      && ((ws'.rows == ws.rows && ws'.current == ws.current)
          || (ws'.current !in ws.rows && IsHeld(s, ws'.current)
              && ws'.rows.Keys == ws.rows.Keys + {ws'.current} && |ws'.log| == |ws.log| + 1))
  {
    hide Follows, NumberTaken, NumberedAt, IsLatest, Begun;
    if ev.Step? && s.reqs[ev.r].pc.AtCommit? {
      assert Holds(s, ev.r);
      RequestIsOk(s, ev.r);
    }
  }

  lemma UnviableStays(s: State, ev: Event, r: ReqId)
    requires Inv(s) && Enabled(s, ev) && r in s.reqs && !IsViable(s, r)
    ensures r in Next(s, ev).reqs && !IsViable(Next(s, ev), r)
  {
    if ev.Step? && ev.r == r {
      UnviableMover(s, r, ev.latest);
    } else if ev.Abort? && ev.r == r {
    } else {
      UnviableBystander(s, ev, r);
    }
  }

  lemma UnviableNext(s: State, ev: Event, s': State, r: ReqId)
    requires Inv(s) && Leads(s, ev, s') && r in s.reqs && !IsViable(s, r)
    ensures r in s'.reqs && !IsViable(s', r)
  {
    hide Inv, IsViable, Next, Enabled;
    UnviableStays(s, ev, r);
  }

  lemma {:induction false} UnviableForever(ss: seq<State>, evs: seq<Event>, n: nat, r: ReqId)
    requires IsPath(ss, evs) && Inv(ss[0]) && n <= |evs| && r in ss[0].reqs && !IsViable(ss[0], r)
    ensures r in ss[n].reqs && !IsViable(ss[n], r)
  {
    hide Inv, IsViable, Leads;
    if n > 0 {
      UnviableForever(ss, evs, n - 1, r);
      PathInv(ss, evs, n - 1);
      assert StepAt(ss, evs, n - 1);
      UnviableNext(ss[n - 1], evs[n - 1], ss[n], r);
    }
  }

  /** In every reachable state, a request has committed or can still commit if and only if it is viable. */
  lemma CanCommitIff(ss: seq<State>, evs: seq<Event>, n: nat, r: ReqId)
    requires IsRun(ss, evs) && n <= |evs| && r in ss[n].reqs
    ensures CanCommit(ss[n], r) <==> IsViable(ss[n], r)
  {
    RunInv(ss, evs, n);
    CanCommitIffViable(ss[n], r);
  }

  /** Which requests can commit when they begin: those that find the workspace, an approved one only jobs, a
      save only its expected revision as the current one, and a restore only a source that is there, about
      to be, or an id not yet drawn. */
  lemma BeginnerCommitsIff(ss: seq<State>, evs: seq<Event>, n: nat)
    requires IsRun(ss, evs) && n < |evs| && evs[n].Begin?
    ensures var s, kind := ss[n], evs[n].kind;
      CanCommit(ss[n + 1], evs[n].r) <==>
      && s.ws.present
      && (s.ws.approved ==> kind.Generate?)
      && (kind.Save? && kind.expected.Some? ==> kind.expected.value == s.ws.current)
      && (kind.Restore? ==> kind.source in s.ws.rows || kind.source >= s.ws.nextId || IsHeld(s, kind.source))
  {
    hide CanCommit;
    assert StepAt(ss, evs, n);
    CanCommitIff(ss, evs, n + 1, evs[n].r);
    HeldByOthers(ss[n], evs[n]);
  }

  lemma HeldByOthers(s: State, ev: Event)
    requires ev.Begin? && Enabled(s, ev)
    ensures forall id: Id :: IsHeld(Next(s, ev), id) <==> IsHeld(s, id)
  {
    var s' := Next(s, ev);
    forall id: Id
      ensures IsHeld(s', id) <==> IsHeld(s, id)
    {
      if IsHeld(s, id) {
        var o :| o in s.reqs && Holds(s, o) && s.reqs[o].pc.id == id;
        assert o in s'.reqs && Holds(s', o) && s'.reqs[o].pc.id == id;
      }
      if IsHeld(s', id) {
        var o :| o in s'.reqs && Holds(s', o) && s'.reqs[o].pc.id == id;
        assert o in s.reqs && Holds(s, o) && s.reqs[o].pc.id == id;
      }
    }
  }

  lemma CanCommitIffViable(s: State, r: ReqId)
    requires Inv(s) && r in s.reqs
    ensures CanCommit(s, r) <==> IsViable(s, r)
  {
    hide Inv, Stepped, Enabled;
    if IsViable(s, r) {
      ViableCommits(s, r);
    } else if CanCommit(s, r) {
      var s' :| Reaches(s, s') && HasCommitted(s', r);
      var ss, evs :| LeadsFrom(ss, evs, s, s');
      UnviableForever(ss, evs, |evs|, r);
    }
  }
}
