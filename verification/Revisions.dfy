/**
 The revision history of one resume workspace under concurrent requests: saves,
 restores, AI generation and refinement, background jobs, approval and deletion.
 One event per database statement at READ COMMITTED. Documents are texts, up to the
 form in which validation writes them; `log`, and `kind` and `base` in a row, are history that no guard reads.
 */
module Revisions {
  import opened Options

  type Id = nat
  type ReqId = nat

  datatype Kind =
    | Save(expected: Option<Id>, edited: string)   // PUT document
    | Assist(written: string)                      // generate and refine
    | Restore(source: Id)
    | Generate(written: string)                    // the background job

  /** `base` is the revision that was current when the request read the workspace. */
  datatype Row = Row(number: nat, document: string, kind: Kind, base: Id)

  datatype Workspace = Workspace(
    present: bool, approved: bool, current: Id, rows: map<Id, Row>, nextId: Id,
    log: seq<Id>)  // history: the ids in the order of their commits

  datatype Pc =
    | AtRevision(base: Id)
    | AtOwned(base: Id, document: string)
    | AtNumber(base: Id, document: string)
    | AtInsert(base: Id, document: string, number: nat)
    | AtCommit(id: Id, row: Row)
    | Done(id: Id)
    | Stopped

  datatype Request = Request(kind: Kind, pc: Pc)

  datatype State = State(ws: Workspace, reqs: map<ReqId, Request>)

  datatype Event =
    | Begin(r: ReqId, kind: Kind)
    | Step(r: ReqId, latest: Option<Id>)   // `latest` answers ORDER BY revision_number DESC LIMIT 1
    | Abort(r: ReqId)                      // a failed validation, AI call or connection: rolled back
    | Approve
    | Delete

  ghost predicate Initial(s: State) {
    && s.reqs == map[]
    && s.ws.present && !s.ws.approved
    && (exists document, kind :: s.ws.rows == map[s.ws.current := Row(1, document, kind, s.ws.current)])
    && s.ws.current < s.ws.nextId
    && s.ws.log == [s.ws.current]
  }

  predicate NumberTaken(rows: map<Id, Row>, number: nat) {
    exists id <- rows :: rows[id].number == number
  }

  predicate IsLatest(rows: map<Id, Row>, latest: Option<Id>) {
    match latest
    case None => rows == map[]
    case Some(top) => top in rows && forall id <- rows :: rows[id].number <= rows[top].number
  }

  /** `r` has inserted a row and not committed yet. */
  predicate Holds(s: State, r: ReqId) {
    r in s.reqs && s.reqs[r].pc.AtCommit?
  }

  predicate IsOver(q: Request) {
    q.pc.Done? || q.pc.Stopped?
  }

  /** An insert waits for the uncommitted insert of the same number; a delete waits for any, since
      the foreign key locks the workspace. */
  ghost predicate Enabled(s: State, ev: Event) {
    match ev
    case Begin(r, _) => r !in s.reqs
    case Step(r, latest) =>
      && r in s.reqs && !IsOver(s.reqs[r])
      && (s.reqs[r].pc.AtNumber? ==> IsLatest(s.ws.rows, latest))
      && (s.reqs[r].pc.AtInsert? ==>
            forall o :: Holds(s, o) ==> s.reqs[o].pc.row.number != s.reqs[r].pc.number)
    case Abort(r) => r in s.reqs && !IsOver(s.reqs[r])
    case Approve => true
    case Delete => forall o :: !Holds(s, o)
  }

  /** Reading the workspace, with the checks of its status and of the expected revision. */
  function Begun(ws: Workspace, kind: Kind): Pc {
    if !ws.present || (ws.approved && !kind.Generate?) then Stopped
    else match kind
      case Save(expected, edited) =>
        if expected.Some? && expected.value != ws.current then Stopped else AtNumber(ws.current, edited)
      case _ => AtRevision(ws.current)
  }

  function Committed(ws: Workspace, id: Id, row: Row): Workspace {
    ws.(rows := ws.rows[id := row], current := id, log := ws.log + [id])
  }

  /** The session answers the second read of the workspace from its identity map, so the checks that
      generate, refine and restore repeat there compare the first answer with itself. */
  function Stepped(ws: Workspace, q: Request, latest: Option<Id>): (Workspace, Pc)
    requires !IsOver(q)
    requires q.pc.AtNumber? ==> IsLatest(ws.rows, latest)
  {
    match q.pc
    case AtRevision(base) => (ws, match q.kind
      case Restore(source) => if source in ws.rows then AtOwned(base, ws.rows[source].document) else Stopped
      case Generate(written) => if base in ws.rows then AtInsert(base, written, ws.rows[base].number + 1) else Stopped
      case Assist(written) => if base in ws.rows then AtOwned(base, written) else Stopped
      case Save(_, _) => Stopped)
    case AtOwned(base, document) => (ws, if ws.present then AtNumber(base, document) else Stopped)
    case AtNumber(base, document) =>
      (ws, AtInsert(base, document, if latest.None? then 1 else ws.rows[latest.value].number + 1))
    case AtInsert(base, document, number) =>
      if !ws.present || NumberTaken(ws.rows, number) then (ws, Stopped)
      else (ws.(nextId := ws.nextId + 1), AtCommit(ws.nextId, Row(number, document, q.kind, base)))
    case AtCommit(id, row) => (Committed(ws, id, row), Done(id))
  }

  function Next(s: State, ev: Event): State
    requires Enabled(s, ev)
  {
    match ev
    case Begin(r, kind) => s.(reqs := s.reqs[r := Request(kind, Begun(s.ws, kind))])
    case Step(r, latest) =>
      var (ws, pc) := Stepped(s.ws, s.reqs[r], latest);
      State(ws, s.reqs[r := s.reqs[r].(pc := pc)])
    case Abort(r) => s.(reqs := s.reqs[r := s.reqs[r].(pc := Stopped)])
    case Approve => s.(ws := s.ws.(approved := true))
    case Delete => s.(ws := s.ws.(present := false, rows := map[], log := []))
  }

  // ---- invariant --------------------------------------------------------------------------

  /** The text that the request was made to store. */
  predicate IsItsText(rows: map<Id, Row>, kind: Kind, document: string) {
    match kind
    case Save(_, edited) => document == edited
    case Assist(written) => document == written
    case Restore(source) => source in rows && document == rows[source].document
    case Generate(written) => document == written
  }

  /** What a row owes to the revisions before it. */
  predicate Follows(rows: map<Id, Row>, row: Row) {
    && row.base in rows && rows[row.base].number < row.number
    && (row.kind.Generate? ==> rows[row.base].number + 1 == row.number)
    && IsItsText(rows, row.kind, row.document)
    && (row.kind.Save? && row.kind.expected.Some? ==> row.kind.expected.value == row.base)
  }

  predicate NumberedAt(ws: Workspace, id: Id)
    requires id in ws.rows
  {
    var row := ws.rows[id];
    && id < ws.nextId
    && 1 <= row.number <= |ws.log| && ws.log[row.number - 1] == id
    && (row.number > 1 ==> Follows(ws.rows, row))
  }

  ghost predicate HistoryOk(ws: Workspace) {
    && (if ws.present then ws.log != [] && ws.current == ws.log[|ws.log| - 1] else ws.rows == map[] && ws.log == [])
    && (forall i | 0 <= i < |ws.log| :: ws.log[i] in ws.rows && ws.rows[ws.log[i]].number == i + 1)
    && (forall id <- ws.rows :: NumberedAt(ws, id))
  }

  /** The revision read at the start, and the document to be stored. */
  predicate Carries(ws: Workspace, kind: Kind, base: Id, document: string) {
    && base in ws.rows
    && IsItsText(ws.rows, kind, document)
    && (kind.Save? && kind.expected.Some? ==> kind.expected.value == base)
  }

  predicate RequestOk(ws: Workspace, q: Request) {
    match q.pc
    case AtRevision(base) => base in ws.rows && !q.kind.Save?
    case AtOwned(base, document) => Carries(ws, q.kind, base, document) && !q.kind.Generate?
    case AtNumber(base, document) => Carries(ws, q.kind, base, document) && !q.kind.Generate?
    case AtInsert(base, document, number) =>
      number <= |ws.log| + 1 && Follows(ws.rows, Row(number, document, q.kind, base))
    case AtCommit(id, row) =>
      && row.number == |ws.log| + 1 && id !in ws.rows && id < ws.nextId && row.kind == q.kind
      && Follows(ws.rows, row)
    case Done(id) => id in ws.rows && ws.rows[id].kind == q.kind
    case Stopped => true
  }

  predicate CanMove(s: State, r: ReqId)
    requires r in s.reqs
  {
    s.ws.present ==> RequestOk(s.ws, s.reqs[r])
  }

  ghost predicate RequestsOk(s: State) {
    forall r <- s.reqs :: CanMove(s, r)
  }

  ghost predicate OneHolder(s: State) {
    && (forall r, o :: Holds(s, r) && Holds(s, o) ==> r == o)
    && (forall r :: Holds(s, r) ==> s.ws.present)
  }

  ghost predicate Inv(s: State) {
    HistoryOk(s.ws) && RequestsOk(s) && OneHolder(s)
  }

  lemma InitialInv(s: State)
    requires Initial(s)
    ensures Inv(s)
  {
  }

  lemma FollowsStill(rows: map<Id, Row>, id: Id, added: Row, row: Row)
    requires Follows(rows, row) && id !in rows
    ensures Follows(rows[id := added], row)
  {
  }

  lemma NumberedStill(ws: Workspace, id: Id, added: Row, o: Id)
    requires o in ws.rows && NumberedAt(ws, o) && id !in ws.rows
    ensures NumberedAt(Committed(ws, id, added), o)
  {
    if ws.rows[o].number > 1 {
      FollowsStill(ws.rows, id, added, ws.rows[o]);
    }
  }

  /** A new row with the next number. */
  lemma AppendKeepsHistory(ws: Workspace, id: Id, row: Row)
    requires HistoryOk(ws) && ws.present && id !in ws.rows && id < ws.nextId
    requires row.number == |ws.log| + 1 && Follows(ws.rows, row)
    ensures HistoryOk(Committed(ws, id, row))
  {
    hide Follows;
    var ws' := Committed(ws, id, row);
    FollowsStill(ws.rows, id, row, row);
    assert NumberedAt(ws', id);
    hide NumberedAt;
    forall o <- ws'.rows
      ensures NumberedAt(ws', o)
    {
      if o != id {
        NumberedStill(ws, id, row, o);
      }
    }
    forall i | 0 <= i < |ws'.log|
      ensures ws'.log[i] in ws'.rows && ws'.rows[ws'.log[i]].number == i + 1
    {
      if i < |ws.log| {
        assert ws'.log[i] == ws.log[i] && ws.log[i] in ws.rows;
      }
    }
  }

  /** What was known of a request survives the commit of another. */
  lemma AppendKeepsRequest(ws: Workspace, id: Id, row: Row, q: Request)
    requires RequestOk(ws, q) && !q.pc.AtCommit? && id !in ws.rows
    ensures RequestOk(Committed(ws, id, row), q)
  {
    if q.pc.AtInsert? {
      FollowsStill(ws.rows, id, row, Row(q.pc.number, q.pc.document, q.kind, q.pc.base));
    }
  }

  lemma NumberIsBounded(ws: Workspace, id: Id)
    requires HistoryOk(ws) && id in ws.rows
    ensures 1 <= ws.rows[id].number <= |ws.log| && ws.log[ws.rows[id].number - 1] == id && id < ws.nextId
  {
    assert NumberedAt(ws, id);
  }

  lemma NextIdIsFree(ws: Workspace)
    requires HistoryOk(ws)
    ensures ws.nextId !in ws.rows
  {
    if ws.nextId in ws.rows {
      NumberIsBounded(ws, ws.nextId);
    }
  }

  /** The next number, by the invariant, is the only one an insert can take. */
  lemma FreeNumberIsNext(ws: Workspace, number: nat)
    requires HistoryOk(ws) && 1 <= number <= |ws.log| + 1
    ensures NumberTaken(ws.rows, number) <==> number <= |ws.log|
  {
    if number <= |ws.log| {
      assert ws.log[number - 1] in ws.rows;
    } else if NumberTaken(ws.rows, number) {
      var id :| id in ws.rows && ws.rows[id].number == number;
      NumberIsBounded(ws, id);
    }
  }

  lemma CurrentIsThere(ws: Workspace)
    requires HistoryOk(ws) && ws.present
    ensures ws.current in ws.rows && ws.rows[ws.current].number == |ws.log|
  {
    assert ws.log[|ws.log| - 1] in ws.rows;
  }

  lemma LatestIsTop(ws: Workspace, latest: Option<Id>)
    requires HistoryOk(ws) && ws.present && IsLatest(ws.rows, latest)
    ensures latest == Some(ws.current) && ws.rows[ws.current].number == |ws.log|
  {
    CurrentIsThere(ws);
    NumberIsBounded(ws, latest.value);
  }

  lemma CurrentIsLatest(ws: Workspace)
    requires HistoryOk(ws) && ws.present
    ensures IsLatest(ws.rows, Some(ws.current))
  {
    CurrentIsThere(ws);
    forall id <- ws.rows
      ensures ws.rows[id].number <= ws.rows[ws.current].number
    {
      NumberIsBounded(ws, id);
    }
  }

  /** A step that writes no row leaves the request in order. */
  lemma StepKeepsRequest(ws: Workspace, q: Request, latest: Option<Id>)
    requires HistoryOk(ws) && ws.present && RequestOk(ws, q) && !IsOver(q) && !q.pc.AtCommit? && !q.pc.AtInsert?
    requires q.pc.AtNumber? ==> IsLatest(ws.rows, latest)
    ensures RequestOk(ws, q.(pc := Stepped(ws, q, latest).1))
  {
    hide NumberedAt;
    match q.pc
    case AtRevision(base) => NumberIsBounded(ws, base);
    case AtNumber(base, _) =>
      LatestIsTop(ws, latest);
      NumberIsBounded(ws, base);
    case _ =>
  }

  /** The steps that leave the rows alone: `r` moves, nothing else changes. */
  lemma QuietStepKeepsInv(s: State, r: ReqId, q: Request)
    requires Inv(s) && q.pc.AtCommit? == false
    requires s.ws.present ==> RequestOk(s.ws, q)
    ensures Inv(s.(reqs := s.reqs[r := q]))
  {
    var s' := s.(reqs := s.reqs[r := q]);
    forall o <- s'.reqs
      ensures CanMove(s', o)
    {
      if o != r {
        assert CanMove(s, o);
      }
    }
    assert forall o :: Holds(s', o) ==> Holds(s, o);
  }

  /** Drawing an id from the sequence. */
  lemma DrawKeepsHistory(ws: Workspace)
    requires HistoryOk(ws)
    ensures HistoryOk(ws.(nextId := ws.nextId + 1))
  {
    var ws' := ws.(nextId := ws.nextId + 1);
    forall id <- ws'.rows
      ensures NumberedAt(ws', id)
    {
      assert NumberedAt(ws, id);
    }
  }

  lemma HolderHasNextNumber(s: State, o: ReqId)
    requires Inv(s) && Holds(s, o)
    ensures s.reqs[o].pc.row.number == |s.ws.log| + 1
  {
    assert CanMove(s, o);
  }

  lemma DrawKeepsRequest(ws: Workspace, q: Request)
    requires RequestOk(ws, q)
    ensures RequestOk(ws.(nextId := ws.nextId + 1), q)
  {
  }

  /** With no row waiting, `r` may hold one. */
  lemma HoldingKeepsRequests(s: State, r: ReqId, q: Request)
    requires RequestsOk(s) && s.ws.present
    requires RequestOk(s.ws.(nextId := s.ws.nextId + 1), q)
    ensures RequestsOk(State(s.ws.(nextId := s.ws.nextId + 1), s.reqs[r := q]))
  {
    hide RequestOk;
    var s' := State(s.ws.(nextId := s.ws.nextId + 1), s.reqs[r := q]);
    forall o <- s'.reqs
      ensures CanMove(s', o)
    {
      if o != r {
        assert CanMove(s, o);
        DrawKeepsRequest(s.ws, s.reqs[o]);
      }
    }
  }

  lemma HoldingAlone(s: State, r: ReqId, q: Request)
    requires s.ws.present && (forall o :: !Holds(s, o))
    ensures OneHolder(State(s.ws.(nextId := s.ws.nextId + 1), s.reqs[r := q]))
  {
    var s' := State(s.ws.(nextId := s.ws.nextId + 1), s.reqs[r := q]);
    assert forall o :: Holds(s', o) ==> o == r || Holds(s, o);
  }

  lemma NobodyHolds(s: State, r: ReqId)
    requires Inv(s) && Enabled(s, Step(r, None)) && s.reqs[r].pc.AtInsert? && s.reqs[r].pc.number == |s.ws.log| + 1
    ensures forall o :: !Holds(s, o)
  {
    forall o | Holds(s, o)
      ensures false
    {
      HolderHasNextNumber(s, o);
    }
  }

  lemma RequestIsOk(s: State, r: ReqId)
    requires RequestsOk(s) && r in s.reqs && s.ws.present
    ensures RequestOk(s.ws, s.reqs[r])
  {
    assert CanMove(s, r);
  }

  function Inserted(ws: Workspace, q: Request): Request
    requires q.pc.AtInsert?
  {
    q.(pc := AtCommit(ws.nextId, Row(q.pc.number, q.pc.document, q.kind, q.pc.base)))
  }

  lemma InsertedIsOk(ws: Workspace, q: Request)
    requires HistoryOk(ws) && RequestOk(ws, q) && q.pc.AtInsert? && q.pc.number == |ws.log| + 1
    ensures RequestOk(ws.(nextId := ws.nextId + 1), Inserted(ws, q))
  {
    hide Follows;
    NextIdIsFree(ws);
  }

  lemma InsertTakesTheTurn(s: State, r: ReqId)
    requires Inv(s) && Enabled(s, Step(r, None)) && s.reqs[r].pc.AtInsert?
    requires s.ws.present && s.reqs[r].pc.number == |s.ws.log| + 1
    ensures Inv(State(s.ws.(nextId := s.ws.nextId + 1), s.reqs[r := Inserted(s.ws, s.reqs[r])]))
  {
    hide HistoryOk, RequestOk, OneHolder, RequestsOk, Holds;
    NobodyHolds(s, r);
    RequestIsOk(s, r);
    InsertedIsOk(s.ws, s.reqs[r]);
    DrawKeepsHistory(s.ws);
    HoldingKeepsRequests(s, r, Inserted(s.ws, s.reqs[r]));
    HoldingAlone(s, r, Inserted(s.ws, s.reqs[r]));
  }

  lemma StoppedIsOk(ws: Workspace, kind: Kind)
    ensures RequestOk(ws, Request(kind, Stopped))
  {
  }

  lemma FreeInsertIsNext(ws: Workspace, q: Request)
    requires HistoryOk(ws) && RequestOk(ws, q) && q.pc.AtInsert? && !NumberTaken(ws.rows, q.pc.number)
    ensures q.pc.number == |ws.log| + 1
  {
    FreeNumberIsNext(ws, q.pc.number);
  }

  lemma InsertKeepsInv(s: State, r: ReqId)
    requires Inv(s) && Enabled(s, Step(r, None)) && s.reqs[r].pc.AtInsert?
    ensures Inv(Next(s, Step(r, None)))
  {
    hide HistoryOk, RequestOk, OneHolder, RequestsOk, Holds, NumberTaken;
    var q := s.reqs[r];
    if !s.ws.present || NumberTaken(s.ws.rows, q.pc.number) {
      StoppedIsOk(s.ws, q.kind);
      QuietStepKeepsInv(s, r, Request(q.kind, Stopped));
    } else {
      RequestIsOk(s, r);
      FreeInsertIsNext(s.ws, q);
      InsertTakesTheTurn(s, r);
    }
  }

  lemma CommitKeepsInv(s: State, r: ReqId)
    requires Inv(s) && Holds(s, r)
    ensures Inv(Next(s, Step(r, None)))
  {
    var s' := Next(s, Step(r, None));
    var AtCommit(id, row) := s.reqs[r].pc;
    assert CanMove(s, r);
    AppendKeepsHistory(s.ws, id, row);
    forall o <- s'.reqs
      ensures CanMove(s', o)
    {
      if o != r {
        assert CanMove(s, o);
        assert !Holds(s, o);
        AppendKeepsRequest(s.ws, id, row, s.reqs[o]);
      }
    }
    assert forall o :: Holds(s', o) ==> Holds(s, o) && o != r;
  }

  lemma StepKeepsInv(s: State, r: ReqId, latest: Option<Id>)
    requires Inv(s) && Enabled(s, Step(r, latest))
    ensures Inv(Next(s, Step(r, latest)))
  {
    var q := s.reqs[r];
    if q.pc.AtInsert? {
      InsertKeepsInv(s, r);
      assert Next(s, Step(r, latest)) == Next(s, Step(r, None));
    } else if q.pc.AtCommit? {
      assert Holds(s, r);
      CommitKeepsInv(s, r);
      assert Next(s, Step(r, latest)) == Next(s, Step(r, None));
    } else {
      assert CanMove(s, r);
      if s.ws.present {
        StepKeepsRequest(s.ws, q, latest);
      }
      QuietStepKeepsInv(s, r, q.(pc := Stepped(s.ws, q, latest).1));
    }
  }

  lemma BeginKeepsInv(s: State, r: ReqId, kind: Kind)
    requires Inv(s)
    ensures Inv(s.(reqs := s.reqs[r := Request(kind, Begun(s.ws, kind))]))
  {
    if s.ws.present {
      CurrentIsThere(s.ws);
    }
    QuietStepKeepsInv(s, r, Request(kind, Begun(s.ws, kind)));
  }

  /** Every statement of every request keeps the history in order. */
  lemma InvPreserved(s: State, ev: Event)
    requires Inv(s) && Enabled(s, ev)
    ensures Inv(Next(s, ev))
  {
    match ev
    case Begin(r, kind) => BeginKeepsInv(s, r, kind);
    case Step(r, latest) => StepKeepsInv(s, r, latest);
    case Abort(r) => QuietStepKeepsInv(s, r, s.reqs[r].(pc := Stopped));
    case Approve => ApproveKeepsInv(s);
    case Delete =>
      var s' := Next(s, Delete);
      assert forall o :: Holds(s', o) ==> Holds(s, o);
  }

  lemma ApproveKeepsInv(s: State)
    requires Inv(s)
    ensures Inv(Next(s, Approve))
  {
    var s' := Next(s, Approve);
    ApprovalKeepsHistory(s.ws);
    forall o <- s'.reqs
      ensures CanMove(s', o)
    {
      assert CanMove(s, o);
    }
    assert forall o :: Holds(s', o) == Holds(s, o);
  }

  lemma ApprovalKeepsHistory(ws: Workspace)
    requires HistoryOk(ws)
    ensures HistoryOk(ws.(approved := true))
  {
    var ws' := ws.(approved := true);
    forall id <- ws'.rows
      ensures NumberedAt(ws', id)
    {
      assert NumberedAt(ws, id);
    }
  }
}
