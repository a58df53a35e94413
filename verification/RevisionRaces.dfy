/**
 Two promises that the routes do not keep, by runs: a save that names the revision
 it expects can land on top of another one, and an approved workspace can still be
 written to, by a job and by a save that read it before.
 */
module RevisionRaces {
  import opened Options
  import opened Revisions
  import opened RevisionTheorems

  lemma Extended(ss: seq<State>, evs: seq<Event>, ev: Event)
    requires IsPath(ss, evs) && Enabled(ss[|evs|], ev)
    ensures IsPath(ss + [Next(ss[|evs|], ev)], evs + [ev])
  {
    var ss', evs' := ss + [Next(ss[|evs|], ev)], evs + [ev];
    forall i | 0 <= i < |evs'|
      ensures StepAt(ss', evs', i)
    {
      if i < |evs| {
        assert StepAt(ss, evs, i);
      }
    }
  }

  const FIRST := Row(1, "{}", Assist("{}"), 0)

  function Fresh(): State {
    State(Workspace(true, false, 0, map[0 := FIRST], 1, [0]), map[])
  }

  function Saving(document: string): Kind {
    Save(Some(0), document)
  }

  /** Request `r`, checked against revision 0, takes the number after `top` and commits as `id`. */
  lemma SaveLands(ss: seq<State>, evs: seq<Event>, r: ReqId, document: string, number: nat)
    returns (ss': seq<State>, evs': seq<Event>)
    requires IsPath(ss, evs)
    requires var s := ss[|evs|];
      && r in s.reqs && s.reqs[r] == Request(Saving(document), AtNumber(0, document)) && s.ws.present
      && IsLatest(s.ws.rows, Some(s.ws.current)) && s.ws.rows[s.ws.current].number + 1 == number
      && forall o :: !Holds(s, o)
    ensures IsPath(ss', evs') && |evs'| == |evs| + 3 && ss <= ss' && evs <= evs'
    ensures var s, s' := ss[|evs|], ss'[|evs'|];
      && s'.ws == Committed(s.ws.(nextId := s.ws.nextId + 1), s.ws.nextId, Row(number, document, Saving(document), 0))
      && s'.reqs == s.reqs[r := Request(Saving(document), Done(s.ws.nextId))]
  {
    var s := ss[|evs|];
    var count, write := Step(r, Some(s.ws.current)), Step(r, None);
    Extended(ss, evs, count);
    var s1 := Next(s, count);
    assert s1 == s.(reqs := s.reqs[r := Request(Saving(document), AtInsert(0, document, number))]);
    assert forall o :: Holds(s1, o) ==> Holds(s, o);
    Extended(ss + [s1], evs + [count], write);
    var s2 := Next(s1, write);
    assert s2.reqs ==
        s1.reqs[r := Request(Saving(document), AtCommit(s.ws.nextId, Row(number, document, Saving(document), 0)))];
    Extended(ss + [s1] + [s2], evs + [count] + [write], write);
    var s3 := Next(s2, write);
    ss', evs' := ss + [s1] + [s2] + [s3], evs + [count] + [write] + [write];
  }

  /** Two saves both expect revision 0 and both succeed; the second replaces a revision it never saw. */
  lemma BothSavesLand() returns (ss: seq<State>, evs: seq<Event>)
    ensures IsRun(ss, evs)
    ensures var ws := ss[|evs|].ws;
      && ws.log == [0, 1, 2] && 1 in ws.rows && 2 in ws.rows
      && ws.rows[1].kind.Save? && ws.rows[1].kind.expected == Some(0)
      && ws.rows[2].kind.Save? && ws.rows[2].kind.expected == Some(0)
  {
    var s0 := Fresh();
    var b1, b2 := Begin(1, Saving("a")), Begin(2, Saving("b"));
    Extended([s0], [], b1);
    var s1 := Next(s0, b1);
    Extended([s0] + [s1], [] + [b1], b2);
    var s2 := Next(s1, b2);
    ss, evs := [s0] + [s1] + [s2], [] + [b1] + [b2];
    assert forall o :: !Holds(s2, o);
    ss, evs := SaveLands(ss, evs, 1, "a", 2);
    ghost var s := ss[|evs|];
    assert s.ws.rows == map[0 := FIRST, 1 := Row(2, "a", Saving("a"), 0)];
    assert s.ws.log == [0] + [1];
    assert forall o :: !Holds(s, o);
    ss, evs := SaveLands(ss, evs, 2, "b", 3);
    assert Initial(s0);
  }

  lemma JobInserts() returns (ss: seq<State>, evs: seq<Event>)
    ensures IsPath(ss, evs) && |evs| == 3 && ss[0] == Fresh()
    ensures ss[1] == State(Fresh().ws.(approved := true), map[])
    ensures ss[3] == State(ss[1].ws, map[1 := Request(Generate("a"), AtInsert(0, "a", 2))])
  {
    var s0 := Fresh();
    var begin, step := Begin(1, Generate("a")), Step(1, None);
    var s1 := Next(s0, Approve);
    Extended([s0], [], Approve);
    var s2 := Next(s1, begin);
    Extended([s0] + [s1], [] + [Approve], begin);
    assert s2.reqs[1] == Request(Generate("a"), AtRevision(0));
    var s3 := Next(s2, step);
    Extended([s0] + [s1] + [s2], [] + [Approve] + [begin], step);
    ss, evs := [s0] + [s1] + [s2] + [s3], [] + [Approve] + [begin] + [step];
  }

  /** A job that reads the workspace after its approval still adds a revision to it. */
  lemma JobWritesToApproved() returns (ss: seq<State>, evs: seq<Event>)
    ensures IsRun(ss, evs) && |evs| == 5
    ensures ss[1].ws.approved && ss[1].ws.log == [0] && ss[5].ws.approved && ss[5].ws.log == [0, 1]
  {
    var step := Step(1, None);
    var row := Row(2, "a", Generate("a"), 0);
    ss, evs := JobInserts();
    var s3 := ss[3];
    assert forall o :: !Holds(s3, o);
    Extended(ss, evs, step);
    var s4 := Next(s3, step);
    assert s4.reqs == map[1 := Request(Generate("a"), AtCommit(1, row))];
    Extended(ss + [s4], evs + [step], step);
    var s5 := Next(s4, step);
    ss, evs := ss + [s4] + [s5], evs + [step] + [step];
    assert Initial(ss[0]);
    assert s5.ws.log == [0] + [1];
  }

  /** A save that read the workspace before its approval commits after it. */
  lemma InFlightSaveWritesToApproved() returns (ss: seq<State>, evs: seq<Event>)
    ensures IsRun(ss, evs) && |evs| == 5 && evs[0] == Begin(1, Saving("a")) && evs[1] == Approve
    ensures ss[2].ws.approved && ss[2].ws.log == [0] && ss[5].ws.approved && ss[5].ws.log == [0, 1]
  {
    var s0, begin := Fresh(), Begin(1, Saving("a"));
    var s1 := Next(s0, begin);
    Extended([s0], [], begin);
    var s2 := Next(s1, Approve);
    Extended([s0] + [s1], [] + [begin], Approve);
    ss, evs := [s0] + [s1] + [s2], [] + [begin] + [Approve];
    assert forall o :: !Holds(s2, o);
    ss, evs := SaveLands(ss, evs, 1, "a", 2);
    assert Initial(s0);
    assert ss[5].ws.log == [0] + [1];
  }
}
