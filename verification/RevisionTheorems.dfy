/**
 What every interleaving of saves, restores, generations, jobs, approvals and a
 deletion keeps of a workspace's history.
 */
module RevisionTheorems {
  import opened Options
  import opened Revisions

  ghost predicate Leads(s: State, ev: Event, s': State) {
    Enabled(s, ev) && s' == Next(s, ev)
  }

  ghost predicate StepAt(ss: seq<State>, evs: seq<Event>, i: nat)
    requires i < |evs| && |ss| == |evs| + 1
  {
    Leads(ss[i], evs[i], ss[i + 1])
  }

  ghost predicate IsPath(ss: seq<State>, evs: seq<Event>) {
    |ss| == |evs| + 1 && forall i :: 0 <= i < |evs| ==> StepAt(ss, evs, i)
  }

  ghost predicate IsRun(ss: seq<State>, evs: seq<Event>) {
    IsPath(ss, evs) && Initial(ss[0])
  }

  lemma {:induction false} PathInv(ss: seq<State>, evs: seq<Event>, n: nat)
    requires IsPath(ss, evs) && Inv(ss[0]) && n <= |evs|
    ensures Inv(ss[n])
  {
    hide Inv, Next, Enabled;
    if n > 0 {
      PathInv(ss, evs, n - 1);
      assert StepAt(ss, evs, n - 1);
      InvPreserved(ss[n - 1], evs[n - 1]);
    }
  }

  lemma RunInv(ss: seq<State>, evs: seq<Event>, n: nat)
    requires IsRun(ss, evs) && n <= |evs|
    ensures Inv(ss[n])
  {
    InitialInv(ss[0]);
    PathInv(ss, evs, n);
  }

  lemma NumberTakenIff(ws: Workspace, k: nat)
    requires HistoryOk(ws)
    ensures NumberTaken(ws.rows, k) <==> 1 <= k <= |ws.log|
  {
    if 1 <= k <= |ws.log| {
      assert ws.log[k - 1] in ws.rows;
    } else if NumberTaken(ws.rows, k) {
      var id :| id in ws.rows && ws.rows[id].number == k;
      NumberIsBounded(ws, id);
    }
  }

  /** The committed numbers are exactly 1..n, each once, and the pointer is at n. */
  lemma NumbersAreExact(ss: seq<State>, evs: seq<Event>, n: nat)
    requires IsRun(ss, evs) && n <= |evs| && ss[n].ws.present
    ensures var ws := ss[n].ws;
      && (forall k: nat :: NumberTaken(ws.rows, k) <==> 1 <= k <= |ws.log|)
      && (forall id <- ws.rows, o <- ws.rows :: ws.rows[id].number == ws.rows[o].number ==> id == o)
      && ws.current in ws.rows && IsLatest(ws.rows, Some(ws.current)) && ws.rows[ws.current].number == |ws.log|
  {
    var ws := ss[n].ws;
    RunInv(ss, evs, n);
    CurrentIsThere(ws);
    forall k: nat
      ensures NumberTaken(ws.rows, k) <==> 1 <= k <= |ws.log|
    {
      NumberTakenIff(ws, k);
    }
    forall id <- ws.rows
      ensures 1 <= ws.rows[id].number <= |ws.log| && ws.log[ws.rows[id].number - 1] == id
    {
      NumberIsBounded(ws, id);
    }
    hide HistoryOk, NumberTaken, NumberedAt;
  }

  /** A revision holds the text that its request was made to store, a restored one that of its source; a
      job's revision k was made from revision k - 1; a save that named a revision read that one as current. */
  lemma EveryRevisionFollows(ss: seq<State>, evs: seq<Event>, n: nat, id: Id)
    requires IsRun(ss, evs) && n <= |evs| && id in ss[n].ws.rows && ss[n].ws.rows[id].number > 1
    ensures var rows := ss[n].ws.rows; var row := rows[id];
      && row.base in rows && rows[row.base].number < row.number
      && (row.kind.Generate? ==> rows[row.base].number == row.number - 1)
      && (match row.kind
          case Save(_, edited) => row.document == edited
          case Assist(written) => row.document == written
          case Restore(source) => source in rows && row.document == rows[source].document
          case Generate(written) => row.document == written)
      && (row.kind.Save? && row.kind.expected.Some? ==> row.kind.expected.value == row.base)
  {
    RunInv(ss, evs, n);
    assert NumberedAt(ss[n].ws, id);
  }

  /** What `Next` makes of the rows. */
  lemma RowsGrow(s: State, ev: Event)
    requires Inv(s) && Enabled(s, ev) && Next(s, ev).ws.present
    ensures s.ws.present && s.ws.log <= Next(s, ev).ws.log
    ensures forall id <- s.ws.rows :: id in Next(s, ev).ws.rows && Next(s, ev).ws.rows[id] == s.ws.rows[id]
  {
    if ev.Step? && s.reqs[ev.r].pc.AtCommit? {
      assert CanMove(s, ev.r);
      assert Holds(s, ev.r);
    }
  }

  /** Until the workspace is deleted, no revision is changed, renumbered or lost. */
  lemma {:induction false} HistoryIsAppendOnly(ss: seq<State>, evs: seq<Event>, i: nat, j: nat)
    requires IsRun(ss, evs) && i <= j <= |evs| && ss[j].ws.present
    ensures ss[i].ws.present && ss[i].ws.log <= ss[j].ws.log
    ensures forall id <- ss[i].ws.rows :: id in ss[j].ws.rows && ss[j].ws.rows[id] == ss[i].ws.rows[id]
    decreases j - i
  {
    if i < j {
      assert StepAt(ss, evs, j - 1);
      RunInv(ss, evs, j - 1);
      RowsGrow(ss[j - 1], evs[j - 1]);
      HistoryIsAppendOnly(ss, evs, i, j - 1);
    }
  }

  /** A request keeps its kind, and once over it stays as it is. */
  lemma {:induction false} RequestStays(ss: seq<State>, evs: seq<Event>, i: nat, n: nat, r: ReqId)
    requires IsPath(ss, evs) && i <= n <= |evs| && r in ss[i].reqs
    ensures r in ss[n].reqs && ss[n].reqs[r].kind == ss[i].reqs[r].kind
    ensures IsOver(ss[i].reqs[r]) ==> ss[n].reqs[r] == ss[i].reqs[r]
    decreases n - i
  {
    if i < n {
      RequestStays(ss, evs, i, n - 1, r);
      assert StepAt(ss, evs, n - 1);
    }
  }

  lemma {:induction false} BegunAt(ss: seq<State>, evs: seq<Event>, i: nat, n: nat, r: ReqId) returns (j: nat)
    requires IsPath(ss, evs) && i <= n <= |evs| && r !in ss[i].reqs && r in ss[n].reqs
    ensures i <= j < n && evs[j].Begin? && evs[j].r == r && ss[n].reqs[r].kind == evs[j].kind
    decreases n - i
  {
    assert StepAt(ss, evs, n - 1);
    if r in ss[n - 1].reqs {
      j := BegunAt(ss, evs, i, n - 1, r);
    } else {
      j := n - 1;
    }
  }

  /** A request that has committed has stored a revision as it was asked to, under its id. */
  lemma CommittedAsAsked(ss: seq<State>, evs: seq<Event>, n: nat, r: ReqId) returns (i: nat)
    requires IsRun(ss, evs) && n <= |evs| && r in ss[n].reqs && ss[n].reqs[r].pc.Done? && ss[n].ws.present
    ensures i < n && evs[i].Begin? && evs[i].r == r
    ensures ss[n].reqs[r].pc.id in ss[n].ws.rows && ss[n].ws.rows[ss[n].reqs[r].pc.id].kind == evs[i].kind
  {
    i := BegunAt(ss, evs, 0, n, r);
    RunInv(ss, evs, n);
    RequestIsOk(ss[n], r);
  }

  // ---- what the expected revision is worth ------------------------------------------------

  /** The revision that the request read as current. */
  function BaseOf(pc: Pc): Option<Id> {
    match pc
    case AtRevision(base) => Some(base)
    case AtOwned(base, _) => Some(base)
    case AtNumber(base, _) => Some(base)
    case AtInsert(base, _, _) => Some(base)
    case AtCommit(_, row) => Some(row.base)
    case _ => None
  }

  function NumberOf(pc: Pc): Option<nat> {
    match pc
    case AtInsert(_, _, number) => Some(number)
    case AtCommit(_, row) => Some(row.number)
    case _ => None
  }

  ghost predicate ReadsCurrent(ss: seq<State>, evs: seq<Event>, i: nat, r: ReqId, base: Id)
    requires |ss| == |evs| + 1
  {
    i < |evs| && evs[i].Begin? && evs[i].r == r && ss[i].ws.present && ss[i].ws.current == base
  }

  ghost predicate Counts(ss: seq<State>, evs: seq<Event>, j: nat, r: ReqId)
    requires |ss| == |evs| + 1
  {
    j < |evs| && evs[j].Step? && evs[j].r == r && r in ss[j].reqs && ss[j].reqs[r].pc.AtNumber?
  }

  predicate BasedOn(s: State, r: ReqId, base: Id) {
    r in s.reqs && BaseOf(s.reqs[r].pc) == Some(base)
  }

  lemma BaseStays(s: State, ev: Event, r: ReqId, base: Id)
    requires Enabled(s, ev) && BasedOn(Next(s, ev), r, base)
    ensures BasedOn(s, r, base) || (ev.Begin? && ev.r == r && s.ws.present && s.ws.current == base)
  {
  }

  lemma {:induction false} BeganAt(ss: seq<State>, evs: seq<Event>, n: nat, r: ReqId, base: Id) returns (i: nat)
    requires IsRun(ss, evs) && n <= |evs| && BasedOn(ss[n], r, base)
    ensures i < n && ReadsCurrent(ss, evs, i, r, base)
  {
    assert n > 0 && StepAt(ss, evs, n - 1);
    BaseStays(ss[n - 1], evs[n - 1], r, base);
    if BasedOn(ss[n - 1], r, base) {
      i := BeganAt(ss, evs, n - 1, r, base);
    } else {
      i := n - 1;
    }
  }

  predicate Numbered(s: State, r: ReqId, number: nat) {
    r in s.reqs && NumberOf(s.reqs[r].pc) == Some(number) && !s.reqs[r].kind.Generate?
  }

  lemma NumberStays(s: State, ev: Event, r: ReqId, number: nat)
    requires Inv(s) && s.ws.present && Enabled(s, ev) && Numbered(Next(s, ev), r, number)
    ensures Numbered(s, r, number) ||
            (ev.Step? && ev.r == r && r in s.reqs && s.reqs[r].pc.AtNumber? && number == |s.ws.log| + 1)
  {
    if ev.Step? && ev.r == r && s.reqs[r].pc.AtNumber? {
      LatestIsTop(s.ws, ev.latest);
    } else if ev.Step? && ev.r == r {
      RequestIsOk(s, r);
    }
  }

  lemma {:induction false} CountedAt(ss: seq<State>, evs: seq<Event>, n: nat, r: ReqId, base: Id, number: nat)
    returns (j: nat)
    requires IsRun(ss, evs) && n <= |evs| && ss[n].ws.present && Numbered(ss[n], r, number) && BasedOn(ss[n], r, base)
    ensures j < n && Counts(ss, evs, j, r) && BasedOn(ss[j], r, base) && number == |ss[j].ws.log| + 1
  {
    assert n > 0 && StepAt(ss, evs, n - 1);
    BaseStays(ss[n - 1], evs[n - 1], r, base);
    RunInv(ss, evs, n - 1);
    RowsGrow(ss[n - 1], evs[n - 1]);
    NumberStays(ss[n - 1], evs[n - 1], r, number);
    if Numbered(ss[n - 1], r, number) {
      j := CountedAt(ss, evs, n - 1, r, base, number);
    } else {
      j := n - 1;
    }
  }

  lemma CurrentNumber(ss: seq<State>, evs: seq<Event>, i: nat, n: nat)
    requires IsRun(ss, evs) && i <= n <= |evs| && ss[n].ws.present
    ensures ss[i].ws.current in ss[n].ws.rows && ss[n].ws.rows[ss[i].ws.current].number == |ss[i].ws.log|
  {
    HistoryIsAppendOnly(ss, evs, i, n);
    RunInv(ss, evs, i);
    CurrentIsThere(ss[i].ws);
  }

  /** A save, restore, generation or refinement about to commit was checked at step `i` and counted
      the revisions at step `j`. Between its count and its commit nobody committed; it directly
      follows the revision it was checked against if and only if nobody did so between the check and
      the count either. */
  lemma CommitFollowsItsCheck(ss: seq<State>, evs: seq<Event>, n: nat, r: ReqId) returns (i: nat, j: nat)
    requires IsRun(ss, evs) && n <= |evs| && Holds(ss[n], r) && !ss[n].reqs[r].kind.Generate?
    ensures var row := ss[n].reqs[r].pc.row; var rows := ss[n].ws.rows;
      && i < j < n && ReadsCurrent(ss, evs, i, r, row.base) && Counts(ss, evs, j, r)
      && ss[j].ws.log == ss[n].ws.log && row.number == |ss[n].ws.log| + 1
      && row.base in rows
      && (rows[row.base].number == row.number - 1 <==> ss[i].ws.log == ss[j].ws.log)
  {
    var row := ss[n].reqs[r].pc.row;
    RunInv(ss, evs, n);
    HolderHasNextNumber(ss[n], r);
    RequestIsOk(ss[n], r);
    j := CountedAt(ss, evs, n, r, row.base, row.number);
    i := BeganAt(ss, evs, j, r, row.base);
    HistoryIsAppendOnly(ss, evs, j, n);
    HistoryIsAppendOnly(ss, evs, i, n);
    CurrentNumber(ss, evs, i, n);
  }
}
