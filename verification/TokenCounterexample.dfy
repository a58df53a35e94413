/**
 The one way a refresh jti yields two child pairs: two requests decode it, one
 rotates it, the token expires, the sweep deletes the claim, and only then does
 the other request reach its claim.
 */
module TokenCounterexample {
  import opened Options
  import opened TokenStore
  import opened TokenRotation
  import opened TokenTheorems
  import opened TokenSingleUse

  const CFG := Config(1, 1, 10)
  const PARENT := Payload("u", Refresh, "j", "c", 0, 0, 1)
  const ROW := ClaimRow(0, 1, None, 0, 0)

  function Waiting(pc: Pc): Request {
    Presented(PARENT, Rotate, None, 0, pc)
  }

  function ChildToken(kind: TokenKind, jti: Jti, row: ClaimRow, r: ReqId): Minted {
    Minted(Payload("u", kind, jti, "c", 0, 0, row.consumedAt + 1), ["j"], r)
  }

  lemma Extend(cfg: Config, ss: seq<State>, evs: seq<Event>, ev: Event) returns (ss': seq<State>, evs': seq<Event>)
    requires IsRun(cfg, ss, evs) && Enabled(ss[|evs|], ev)
    ensures WellFormed(ss[|evs|])
    ensures IsRun(cfg, ss', evs') && |evs'| == |evs| + 1 && ss'[|evs'|] == Next(cfg, ss[|evs|], ev)
  {
    RunInv(cfg, ss, evs, |evs|);
    hide Initial, Next, Enabled, WellFormed;
    ss', evs' := ss + [Next(cfg, ss[|evs|], ev)], evs + [ev];
    forall i | 0 <= i < |evs'|
      ensures StepAt(cfg, ss', evs', i)
    {
      assert i < |evs| ==> StepAt(cfg, ss, evs, i);
    }
  }

  /** A login, and the same refresh token presented by requests 1 and 2. */
  lemma TwoRequestsDecode() returns (ss: seq<State>, evs: seq<Event>)
    ensures IsRun(CFG, ss, evs)
    ensures ss[|evs|] == State(Db(0, map[], map[], map["j" := Minted(PARENT, [], 0)], map[], {}),
                               map[0 := Finished, 1 := Waiting(AtAccountVersion), 2 := Waiting(AtAccountVersion)])
  {
    ss, evs := [State(Db(0, map[], map[], map[], map[], {}), map[])], [];
    ss, evs := Extend(CFG, ss, evs, IssueRead(0, Refresh, "u", "c"));
    ss, evs := Extend(CFG, ss, evs, IssueSign(0, "j"));
    ss, evs := Extend(CFG, ss, evs, Present(1, "j", Rotate, None));
    ss, evs := Extend(CFG, ss, evs, Present(2, "j", Rotate, None));
  }

  lemma BothPassTheCheck() returns (ss: seq<State>, evs: seq<Event>)
    ensures IsRun(CFG, ss, evs)
    ensures ss[|evs|] == State(Db(0, map[], map[], map["j" := Minted(PARENT, [], 0)], map[], {}),
                               map[0 := Finished, 1 := Waiting(AtClaim), 2 := Waiting(AtClaim)])
  {
    ss, evs := TwoRequestsDecode();
    ss, evs := Extend(CFG, ss, evs, Advance(1, "x", true));
    ss, evs := Extend(CFG, ss, evs, Advance(1, "x", true));
    ss, evs := Extend(CFG, ss, evs, Advance(2, "x", true));
    ss, evs := Extend(CFG, ss, evs, Advance(2, "x", true));
  }

  lemma FirstClaims() returns (ss: seq<State>, evs: seq<Event>)
    ensures IsRun(CFG, ss, evs)
    ensures ss[|evs|] == State(Db(0, map[], map["j" := ROW], map["j" := Minted(PARENT, [], 0)], map["j" := [1]], {}),
                               map[0 := Finished, 1 := Waiting(AtSignAccess(ROW)), 2 := Waiting(AtClaim)])
  {
    ss, evs := BothPassTheCheck();
    var none: seq<ReqId> := [];
    assert none + [1] == [1];
    ss, evs := Extend(CFG, ss, evs, Advance(1, "x", true));
  }

  const ROOT := map["j" := Minted(PARENT, [], 0)]
  const ROW_AGAIN := ClaimRow(2, 1, None, 0, 0)

  function FirstPair(): map<Jti, Minted> {
    ROOT["a1" := ChildToken(Access, "a1", ROW, 1)]["r1" := ChildToken(Refresh, "r1", ROW, 1)]
  }

  function BothPairs(): map<Jti, Minted> {
    FirstPair()["a2" := ChildToken(Access, "a2", ROW_AGAIN, 2)]["r2" := ChildToken(Refresh, "r2", ROW_AGAIN, 2)]
  }

  function Both(db: Db, first: Pc, second: Pc): State {
    State(db, map[0 := Finished, 1 := Waiting(first), 2 := Waiting(second)])
  }

  function Claimed(minted: map<Jti, Minted>): Db {
    Db(0, map[], map["j" := ROW], minted, map["j" := [1]], {})
  }

  /** A step of `r` that changes no table. */
  lemma Quietly(ss: seq<State>, evs: seq<Event>, r: ReqId, next: Pc) returns (ss': seq<State>, evs': seq<Event>)
    requires IsRun(CFG, ss, evs)
    requires var s := ss[|evs|];
      && r in s.reqs && s.reqs[r].Presented? && !IsDone(s.reqs[r]) && Ready(s.db, s.reqs[r]) && "x" !in s.db.minted
      && Stepped(CFG, s.db, r, s.reqs[r], "x", true) == (Nothing, next)
    ensures IsRun(CFG, ss', evs')
    ensures ss'[|evs'|] == ss[|evs|].(reqs := ss[|evs|].reqs[r := ss[|evs|].reqs[r].(pc := next)])
  {
    hide IsRun, Stepped, Ready;
    ss', evs' := Extend(CFG, ss, evs, Advance(r, "x", true));
  }

  lemma FirstSignsAccess() returns (ss: seq<State>, evs: seq<Event>)
    ensures IsRun(CFG, ss, evs)
    ensures ss[|evs|] ==
            Both(Claimed(ROOT["a1" := ChildToken(Access, "a1", ROW, 1)]), AtSignRefresh(ROW, "a1"), AtClaim)
  {
    ss, evs := FirstClaims();
    var root: seq<Jti> := [];
    assert root + ["j"] == ["j"];
    ss, evs := Extend(CFG, ss, evs, Advance(1, "a1", true));
  }

  lemma FirstSignsRefresh() returns (ss: seq<State>, evs: seq<Event>)
    ensures IsRun(CFG, ss, evs)
    ensures ss[|evs|] == Both(Claimed(FirstPair()), AtDecodeChild("a1", "r1"), AtClaim)
  {
    ss, evs := FirstSignsAccess();
    var root: seq<Jti> := [];
    assert root + ["j"] == ["j"];
    ss, evs := Extend(CFG, ss, evs, Advance(1, "r1", true));
  }

  lemma FirstRechecks() returns (ss: seq<State>, evs: seq<Event>)
    ensures IsRun(CFG, ss, evs)
    ensures ss[|evs|] == Both(Claimed(FirstPair()), AtRecheckAccount("a1", "r1"), AtClaim)
  {
    ss, evs := FirstSignsRefresh();
    ss, evs := Quietly(ss, evs, 1, AtRecheckAccount("a1", "r1"));
  }

  lemma FirstRotates() returns (ss: seq<State>, evs: seq<Event>)
    ensures IsRun(CFG, ss, evs)
    ensures ss[|evs|] == Both(Claimed(FirstPair()), Rotated("a1", "r1"), AtClaim)
  {
    ss, evs := FirstRechecks();
    ss, evs := Quietly(ss, evs, 1, AtRecheckChain("a1", "r1"));
    assert ss[|evs|] == Both(Claimed(FirstPair()), AtRecheckChain("a1", "r1"), AtClaim);
    ss, evs := Quietly(ss, evs, 1, Rotated("a1", "r1"));
  }

  lemma ThenTheClaimIsSwept() returns (ss: seq<State>, evs: seq<Event>)
    ensures IsRun(CFG, ss, evs)
    ensures ss[|evs|] == Both(Db(2, map[], map[], FirstPair(), map["j" := [1]], {"j"}), Rotated("a1", "r1"), AtClaim)
  {
    ss, evs := FirstRotates();
    ss, evs := Extend(CFG, ss, evs, Tick(2));
    assert ss[|evs|] == Both(Claimed(FirstPair()).(now := 2), Rotated("a1", "r1"), AtClaim);
    ss, evs := Extend(CFG, ss, evs, Sweep({"j"}));
  }

  function ClaimedAgain(minted: map<Jti, Minted>): Db {
    Db(2, map[], map["j" := ROW_AGAIN], minted, map["j" := [1, 2]], {"j"})
  }

  lemma SecondClaimsAgain() returns (ss: seq<State>, evs: seq<Event>)
    ensures IsRun(CFG, ss, evs)
    ensures ss[|evs|] == Both(ClaimedAgain(FirstPair()), Rotated("a1", "r1"), AtSignAccess(ROW_AGAIN))
  {
    ss, evs := ThenTheClaimIsSwept();
    assert [1] + [2] == [1, 2];
    ss, evs := Extend(CFG, ss, evs, Advance(2, "x", true));
  }

  lemma SecondSignsAccess() returns (ss: seq<State>, evs: seq<Event>)
    ensures IsRun(CFG, ss, evs)
    ensures ss[|evs|] ==
            Both(ClaimedAgain(FirstPair()["a2" := ChildToken(Access, "a2", ROW_AGAIN, 2)]), Rotated("a1", "r1"),
                              AtSignRefresh(ROW_AGAIN, "a2"))
  {
    ss, evs := SecondClaimsAgain();
    var root: seq<Jti> := [];
    assert root + ["j"] == ["j"];
    ss, evs := Extend(CFG, ss, evs, Advance(2, "a2", true));
  }

  lemma SecondSignsRefresh() returns (ss: seq<State>, evs: seq<Event>)
    ensures IsRun(CFG, ss, evs)
    ensures ss[|evs|] == Both(ClaimedAgain(BothPairs()), Rotated("a1", "r1"), AtDecodeChild("a2", "r2"))
  {
    ss, evs := SecondSignsAccess();
    var root: seq<Jti> := [];
    assert root + ["j"] == ["j"];
    ss, evs := Extend(CFG, ss, evs, Advance(2, "r2", true));
  }

  lemma SecondRotates() returns (ss: seq<State>, evs: seq<Event>)
    ensures IsRun(CFG, ss, evs)
    ensures ss[|evs|] == Both(ClaimedAgain(BothPairs()), Rotated("a1", "r1"), Rotated("a2", "r2"))
  {
    ss, evs := SecondSignsRefresh();
    ss, evs := Quietly(ss, evs, 2, AtRecheckAccount("a2", "r2"));
    assert ss[|evs|] == Both(ClaimedAgain(BothPairs()), Rotated("a1", "r1"), AtRecheckAccount("a2", "r2"));
    ss, evs := Quietly(ss, evs, 2, AtRecheckChain("a2", "r2"));
    assert ss[|evs|] == Both(ClaimedAgain(BothPairs()), Rotated("a1", "r1"), AtRecheckChain("a2", "r2"));
    ss, evs := Quietly(ss, evs, 2, Rotated("a2", "r2"));
  }

  /** Two requests are each handed a pair rotated from the same refresh token. */
  lemma SweptClaimAllowsTwoChildPairs() returns (ss: seq<State>, evs: seq<Event>)
    ensures IsRun(CFG, ss, evs)
    ensures ss[|evs|].reqs[1 := Waiting(Rotated("a1", "r1"))][2 := Waiting(Rotated("a2", "r2"))] == ss[|evs|].reqs
    ensures "r1" in ss[|evs|].db.minted && "r2" in ss[|evs|].db.minted
    ensures forall x :: x in {"a1", "r1", "a2", "r2"} ==> IsChildOf(ss[|evs|].db, x, "j")
    ensures ss[|evs|].db.minted["r1"].token.kind == ss[|evs|].db.minted["r2"].token.kind == Refresh
  {
    ss, evs := SecondRotates();
  }
}
