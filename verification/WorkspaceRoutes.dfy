/**
 The routes of one resume workspace, each run without interruption, as methods
 that change its row and its revisions. What interleaving adds is in
 RevisionTheorems.
 */
module WorkspaceRoutes {
  import opened Options
  import opened Revisions

  datatype Refusal =
    | WorkspaceNotFound
    | Immutable
    | ChangedElsewhere
    | InvalidDocument
    | RevisionNotFound
    | GenerationFailed

  datatype Outcome = Saved(id: Id) | Refused(reason: Refusal)

  datatype JobStatus = Succeeded(result: Id) | Failed

  class WorkspaceRow {
    var present: bool
    var approved: bool
    var current: Id
    var rows: map<Id, Row>
    var nextId: Id
    ghost var log: seq<Id>

    ghost function Contents(): Workspace
      reads this
    {
      Workspace(present, approved, current, rows, nextId, log)
    }

    ghost predicate Valid()
      reads this
    {
      HistoryOk(Contents())
    }

    /** `create_workspace` */
    constructor (document: string)
      ensures Valid() && present && !approved
      ensures rows == map[current := Row(1, document, Assist(document), current)] && log == [current]
    {
      present, approved, current, nextId, log := true, false, 0, 1, [0];
      rows := map[0 := Row(1, document, Assist(document), 0)];
    }

    /** `_owned`, the approval check and the expected-revision check. */
    function FirstRefusal(expected: Option<Id>): Option<Refusal>
      reads this
    {
      if !present then Some(WorkspaceNotFound)
      else if approved then Some(Immutable)
      else if expected.Some? && expected.value != current then Some(ChangedElsewhere)
      else None
    }

    /** What a route that stores `document` leaves behind: one more revision, with the next number and based
        on the one that was current, which it replaces as the current one; everything else as it was. */
    ghost predicate Gained(was: Workspace, document: string, kind: Kind)
      reads this
    {
      && was.nextId !in was.rows
      && rows == was.rows[was.nextId := Row(|was.log| + 1, document, kind, was.current)]
      && current == was.nextId && nextId == was.nextId + 1 && log == was.log + [was.nextId]
      && present == was.present && approved == was.approved
    }

    /** SELECT ... ORDER BY revision_number DESC LIMIT 1, and one more. */
    method NextNumber() returns (number: nat)
      requires Valid() && present
      ensures number == |log| + 1
    {
      number := 1;
      CurrentIsLatest(Contents());
      var latest: Option<Id> :| IsLatest(rows, latest);
      LatestIsTop(Contents(), latest);
      if latest.Some? {
        number := rows[latest.value].number + 1;
      }
    }

    /** INSERT, the pointer, COMMIT. */
    method Append(number: nat, document: string, kind: Kind) returns (id: Id)
      requires Valid() && present && number == |log| + 1 && Follows(rows, Row(number, document, kind, current))
      modifies this
      ensures Valid() && id == old(nextId)
      ensures Gained(old(Contents()), document, kind)
    {
      hide HistoryOk, Follows;
      NextIdIsFree(Contents());
      DrawnThenAppended(Contents(), Row(number, document, kind, current));
      id := nextId;
      rows := rows[id := Row(number, document, kind, current)];
      nextId, current, log := nextId + 1, id, log + [id];
    }

    /** `save_document`; `isValid` stands for `validate_document`. */
    method SaveDocument(document: string, expected: Option<Id>, isValid: string -> bool) returns (outcome: Outcome)
      requires Valid()
      modifies this
      ensures Valid()
      ensures outcome.Refused? ==> Contents() == old(Contents())
      ensures outcome == Refused(WorkspaceNotFound) <==> !old(present)
      ensures outcome == Refused(Immutable) <==> old(present && approved)
      ensures outcome == Refused(ChangedElsewhere) <==>
                old(present && !approved && expected.Some? && expected.value != current)
      ensures outcome == Refused(InvalidDocument) <==>
                old(present && !approved && (expected == None || expected == Some(current))) && !isValid(document)
      ensures outcome.Refused? ==> outcome.reason in {WorkspaceNotFound, Immutable, ChangedElsewhere, InvalidDocument}
      ensures outcome.Saved? ==>
                && outcome.id == old(nextId) == current && current in rows && rows[current].document == document
                && rows - {current} == old(rows)
                && Gained(old(Contents()), document, Save(expected, document))
    {
      var refusal := FirstRefusal(expected);
      if refusal.Some? {
        return Refused(refusal.value);
      }
      if !isValid(document) {
        return Refused(InvalidDocument);
      }
      var id := Store(document, Save(expected, document));
      outcome := Saved(id);
    }

    method Store(document: string, kind: Kind) returns (id: Id)
      requires Valid() && present && !kind.Generate?
      requires Carries(Contents(), kind, current, document)
      modifies this
      ensures Valid() && id == old(nextId)
      ensures Gained(old(Contents()), document, kind)
    {
      CurrentIsThere(Contents());
      var number := NextNumber();
      id := Append(number, document, kind);
    }

    /** `restore_revision`: a new revision with the old text; no revision is taken back. A job's revision
        was stored unvalidated, so its restore can be refused. */
    method RestoreRevision(source: Id, isValid: string -> bool) returns (outcome: Outcome)
      requires Valid()
      modifies this
      ensures Valid()
      ensures outcome.Refused? ==> Contents() == old(Contents())
      ensures outcome == Refused(WorkspaceNotFound) <==> !old(present)
      ensures outcome == Refused(Immutable) <==> old(present && approved)
      ensures outcome == Refused(RevisionNotFound) <==> old(present && !approved) && source !in old(rows)
      ensures outcome == Refused(InvalidDocument) <==>
                old(present && !approved) && source in old(rows) && !isValid(old(rows)[source].document)
      ensures outcome.Refused? ==> outcome.reason in {WorkspaceNotFound, Immutable, RevisionNotFound, InvalidDocument}
      ensures outcome.Saved? ==>
                && outcome.id == old(nextId) == current && current in rows
                && rows[current].document == old(rows)[source].document && rows - {current} == old(rows)
                && Gained(old(Contents()), old(rows)[source].document, Restore(source))
    {
      var refusal := FirstRefusal(None);
      if refusal.Some? {
        return Refused(refusal.value);
      }
      if source !in rows {
        return Refused(RevisionNotFound);
      }
      if !isValid(rows[source].document) {
        return Refused(InvalidDocument);
      }
      CurrentIsThere(Contents());
      var id := Store(rows[source].document, Restore(source));
      outcome := Saved(id);
    }

    /** `generate_workspace_document` and `refine_workspace_document`; `written` is None when the AI fails. */
    method Assisted(written: Option<string>, isValid: string -> bool) returns (outcome: Outcome)
      requires Valid()
      modifies this
      ensures Valid()
      ensures outcome.Refused? ==> Contents() == old(Contents())
      ensures outcome == Refused(WorkspaceNotFound) <==> !old(present)
      ensures outcome == Refused(Immutable) <==> old(present && approved)
      ensures outcome == Refused(GenerationFailed) <==> old(present && !approved) && written.None?
      ensures outcome == Refused(InvalidDocument) <==>
                old(present && !approved) && written.Some? && !isValid(written.value)
      ensures outcome.Refused? ==> outcome.reason in {WorkspaceNotFound, Immutable, GenerationFailed, InvalidDocument}
      ensures outcome.Saved? ==>
                && outcome.id == old(nextId) == current && current in rows && rows[current].document == written.value
                && rows - {current} == old(rows)
                && Gained(old(Contents()), written.value, Assist(written.value))
    {
      var refusal := FirstRefusal(None);
      if refusal.Some? {
        return Refused(refusal.value);
      }
      CurrentIsThere(Contents());
      if written.None? {
        return Refused(GenerationFailed);
      }
      if !isValid(written.value) {
        return Refused(InvalidDocument);
      }
      var id := Store(written.value, Assist(written.value));
      outcome := Saved(id);
    }

    /** `_run_generation_job`, which looks at neither the status nor the highest number. */
    method RunGenerationJob(written: Option<string>) returns (status: JobStatus)
      requires Valid()
      modifies this
      ensures Valid()
      ensures status.Failed? <==> !old(present) || written.None?
      ensures status.Failed? ==> Contents() == old(Contents())
      ensures status.Succeeded? ==>
                && status.result == old(nextId) == current && current in rows && rows[current].document == written.value
                && rows - {current} == old(rows)
                && Gained(old(Contents()), written.value, Generate(written.value))
    {
      if !present || written.None? {
        return Failed;
      }
      CurrentIsThere(Contents());
      var id := Append(rows[current].number + 1, written.value, Generate(written.value));
      status := Succeeded(id);
    }

    /** `approve_workspace` */
    method Approve() returns (outcome: Option<Refusal>)
      requires Valid()
      modifies this`approved
      ensures Valid()
      ensures outcome == if present then None else Some(WorkspaceNotFound)
      ensures approved == (old(approved) || present)
    {
      if !present {
        return Some(WorkspaceNotFound);
      }
      ApprovalKeepsHistory(Contents());
      approved := true;
      outcome := None;
    }

    /** `delete_workspace`: the revisions go with it. */
    method Delete() returns (outcome: Option<Refusal>)
      requires Valid()
      modifies this
      ensures Valid() && !present && rows == map[]
      ensures outcome == if old(present) then None else Some(WorkspaceNotFound)
      ensures approved == old(approved) && nextId == old(nextId)
    {
      outcome := if present then None else Some(WorkspaceNotFound);
      present, rows, log := false, map[], [];
    }
  }

  lemma DrawnThenAppended(ws: Workspace, row: Row)
    requires HistoryOk(ws) && ws.present && row.number == |ws.log| + 1 && Follows(ws.rows, row)
    ensures HistoryOk(Committed(ws.(nextId := ws.nextId + 1), ws.nextId, row))
  {
    NextIdIsFree(ws);
    DrawKeepsHistory(ws);
    hide HistoryOk, Follows;
    AppendKeepsHistory(ws.(nextId := ws.nextId + 1), ws.nextId, row);
  }
}
