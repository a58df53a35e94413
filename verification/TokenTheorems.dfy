/**
 Safety of token rotation over whole runs: every interleaving of the events of
 TokenRotation, from empty tables.
 */
module TokenTheorems {
  import opened TokenStore
  import opened TokenRotation
  import opened TokenInvariants

  /** `ss[i+1]` is what `evs[i]` makes of `ss[i]`. */
  ghost predicate IsRun(cfg: Config, ss: seq<State>, evs: seq<Event>) {
    && |ss| == |evs| + 1
    && Initial(ss[0])
    && forall i :: 0 <= i < |evs| ==> StepAt(cfg, ss, evs, i)
  }

  ghost predicate StepAt(cfg: Config, ss: seq<State>, evs: seq<Event>, i: nat)
    requires i < |evs| && |ss| == |evs| + 1
  {
    Leads(cfg, ss[i], evs[i], ss[i + 1])
  }

  ghost predicate Leads(cfg: Config, s: State, ev: Event, s': State) {
    WellFormed(s) && Enabled(s, ev) && s' == Next(cfg, s, ev)
  }

  lemma {:induction false} RunInv(cfg: Config, ss: seq<State>, evs: seq<Event>, i: nat)
    requires IsRun(cfg, ss, evs) && i <= |evs|
    ensures Inv(ss[i]) && WellFormed(ss[i])
  {
    if i == 0 {
      InitialInv(ss[0]);
      InvWellFormed(ss[0]);
    } else {
      RunInv(cfg, ss, evs, i - 1);
      assert StepAt(cfg, ss, evs, i - 1);
      InvPreserved(cfg, ss[i - 1], evs[i - 1]);
    }
  }

  /** Nothing is unsigned, no counter goes back, no clock goes back. */
  ghost predicate Grows(a: Db, b: Db) {
    && a.now <= b.now
    && VersionsGrow(a.versions, b.versions)
    && (forall j <- a.minted :: j in b.minted && b.minted[j] == a.minted[j])
  }

  lemma {:induction false} RunGrows(cfg: Config, ss: seq<State>, evs: seq<Event>, i: nat, j: nat)
    requires IsRun(cfg, ss, evs) && i <= j <= |evs|
    ensures Grows(ss[i].db, ss[j].db)
    decreases j - i
  {
    if i < j {
      RunGrows(cfg, ss, evs, i, j - 1);
      RunInv(cfg, ss, evs, j - 1);
      assert StepAt(cfg, ss, evs, j - 1);
      EveryEffectIsOk(cfg, ss[j - 1], evs[j - 1]);
      ApplyIsDbStep(ss[j - 1].db, EffectOf(cfg, ss[j - 1], evs[j - 1]));
    }
  }

  // ---- is_current_version is linearizable -------------------------------------------------

  /** The account counter matched at one instant, the chain counter at a later one: then both
      matched at the first. */
  lemma TwoReadsAreOne(cfg: Config, ss: seq<State>, evs: seq<Event>, i: nat, j: nat, jti: Jti)
    requires IsRun(cfg, ss, evs) && i <= j <= |evs| && jti in ss[i].db.minted
    requires AccountMatches(ss[i].db.versions, ss[i].db.minted[jti].token)
    requires ChainMatches(ss[j].db.versions, ss[i].db.minted[jti].token)
    ensures IsCurrent(ss[i].db.versions, ss[i].db.minted[jti].token)
  {
    RunInv(cfg, ss, evs, i);
    RunGrows(cfg, ss, evs, i, j);
    assert MintedOk(ss[i].db, jti);
    var t := ss[i].db.minted[jti].token;
    assert VersionOf(ss[i].db.versions, ChainKey(t.email, t.chain)) <=
        VersionOf(ss[j].db.versions, ChainKey(t.email, t.chain));
  }

  /** Request `r` is at `pc` with token `t`. */
  predicate At(s: State, r: ReqId, t: Payload, pc: Pc) {
    r in s.reqs && s.reqs[r].Presented? && s.reqs[r].token == t && s.reqs[r].pc == pc
  }

  predicate PassedCheck(pc: Pc) {
    !pc.AtAccountVersion? && !pc.AtChainVersion? && !pc.Rejected?
  }

  /** A request that left `from` for `to` did so at some step. */
  lemma {:induction false} PassedAccountRead(cfg: Config, ss: seq<State>, evs: seq<Event>, n: nat, r: ReqId, t: Payload)
    returns (i: nat)
    requires IsRun(cfg, ss, evs) && n <= |evs| && At(ss[n], r, t, AtChainVersion)
    ensures i < n && At(ss[i], r, t, AtAccountVersion) && AccountMatches(ss[i].db.versions, t)
  {
    assert n > 0;
    assert StepAt(cfg, ss, evs, n - 1);
    if At(ss[n - 1], r, t, AtChainVersion) {
      i := PassedAccountRead(cfg, ss, evs, n - 1, r, t);
    } else {
      i := n - 1;
    }
  }

  lemma {:induction false} PassedBothReads(cfg: Config, ss: seq<State>, evs: seq<Event>, n: nat, r: ReqId, t: Payload)
    returns (i: nat, j: nat)
    requires IsRun(cfg, ss, evs) && n <= |evs|
    requires r in ss[n].reqs && ss[n].reqs[r].Presented? && ss[n].reqs[r].token == t && PassedCheck(ss[n].reqs[r].pc)
    ensures i < j < n && At(ss[i], r, t, AtAccountVersion) && At(ss[j], r, t, AtChainVersion)
    ensures AccountMatches(ss[i].db.versions, t) && ChainMatches(ss[j].db.versions, t)
  {
    assert n > 0;
    assert StepAt(cfg, ss, evs, n - 1);
    if r in ss[n - 1].reqs && ss[n - 1].reqs[r].Presented? && PassedCheck(ss[n - 1].reqs[r].pc) {
      i, j := PassedBothReads(cfg, ss, evs, n - 1, r, t);
    } else {
      j := n - 1;
      i := PassedAccountRead(cfg, ss, evs, j, r, t);
    }
  }

  /** Every acceptance, by `verify_token` or by the check before a rotation: at one instant of the
      run, inside the call, both counters equalled the token's versions. */
  lemma AcceptanceIsLinearizable(cfg: Config, ss: seq<State>, evs: seq<Event>, n: nat, r: ReqId)
    requires IsRun(cfg, ss, evs) && n <= |evs|
    requires r in ss[n].reqs && ss[n].reqs[r].Presented? && PassedCheck(ss[n].reqs[r].pc)
    ensures exists i :: 0 <= i < n && At(ss[i], r, ss[n].reqs[r].token, AtAccountVersion)
              && IsCurrent(ss[i].db.versions, ss[n].reqs[r].token)
  {
    var t := ss[n].reqs[r].token;
    var i, j := PassedBothReads(cfg, ss, evs, n, r, t);
    RunInv(cfg, ss, evs, i);
    assert RequestOk(ss[i].db, r, ss[i].reqs[r]);
    TwoReadsAreOne(cfg, ss, evs, i, j, t.jti);
  }

  // ---- revocation is final ----------------------------------------------------------------

  /** `d` was obtained from the refresh token `a` by one or more rotations, or is `a`. */
  predicate Descends(db: Db, d: Jti, a: Jti)
    requires d in db.minted
  {
    d == a || a in db.minted[d].path
  }

  lemma DescendantsShareVersions(db: Db, d: Jti, a: Jti)
    requires DbInv(db) && d in db.minted && Descends(db, d, a)
    ensures a in db.minted && SameLineage(db.minted[d].token, db.minted[a].token)
  {
    assert MintedOk(db, d);
    if d != a {
      var k :| 0 <= k < |db.minted[d].path| && db.minted[d].path[k] == a;
      assert AncestorOk(db, db.minted[d], k);
    }
  }

  lemma StaleStays(v: Versions, w: Versions, t: Payload)
    requires VersionsGrow(v, w) && IsStale(v, t)
    ensures IsStale(w, t)
  {
    assert VersionOf(v, AccountKey(t.email)) <= VersionOf(w, AccountKey(t.email));
    assert VersionOf(v, ChainKey(t.email, t.chain)) <= VersionOf(w, ChainKey(t.email, t.chain));
  }

  /** Where a request that starts after its token went stale can be. */
  predicate Stuck(v: Versions, t: Payload, pc: Pc) {
    || pc.AtAccountVersion?
    || pc.Rejected?
    || (pc.AtChainVersion? && VersionOf(v, ChainKey(t.email, t.chain)) > t.chainVer)
  }

  lemma {:induction false} LateRequestsAreStuck(cfg: Config, ss: seq<State>, evs: seq<Event>, i: nat, n: nat, r: ReqId)
    requires IsRun(cfg, ss, evs) && i <= n <= |evs|
    requires r !in ss[i].reqs && r in ss[n].reqs && ss[n].reqs[r].Presented?
    requires IsStale(ss[i].db.versions, ss[n].reqs[r].token)
    ensures Stuck(ss[i].db.versions, ss[n].reqs[r].token, ss[n].reqs[r].pc)
    decreases n
  {
    assert i < n;
    assert StepAt(cfg, ss, evs, n - 1);
    var t := ss[n].reqs[r].token;
    if r in ss[n - 1].reqs {
      LateRequestsAreStuck(cfg, ss, evs, i, n - 1, r);
      RunGrows(cfg, ss, evs, i, n - 1);
      assert VersionOf(ss[i].db.versions, AccountKey(t.email)) <= VersionOf(ss[n - 1].db.versions, AccountKey(t.email));
      assert VersionOf(ss[i].db.versions, ChainKey(t.email, t.chain))
          <= VersionOf(ss[n - 1].db.versions, ChainKey(t.email, t.chain));
    }
  }

  /** Once a counter has passed the version in a token, that token and everything ever obtained by
      rotating it, by any request, is stale for the rest of the run, and no call that starts later
      gets any of them past the version check. */
  lemma RevocationIsFinal(cfg: Config, ss: seq<State>, evs: seq<Event>, i: nat, a: Jti, n: nat, d: Jti)
    requires IsRun(cfg, ss, evs) && i <= n <= |evs|
    requires a in ss[i].db.minted && IsStale(ss[i].db.versions, ss[i].db.minted[a].token)
    requires d in ss[n].db.minted && Descends(ss[n].db, d, a)
    ensures IsStale(ss[n].db.versions, ss[n].db.minted[d].token)
    ensures !IsCurrent(ss[n].db.versions, ss[n].db.minted[d].token)
    ensures forall r :: r in ss[n].reqs && r !in ss[i].reqs && ss[n].reqs[r].Presented? && ss[n].reqs[r].token.jti == d
              ==> !PassedCheck(ss[n].reqs[r].pc)
  {
    RunInv(cfg, ss, evs, n);
    RunGrows(cfg, ss, evs, i, n);
    DescendantsShareVersions(ss[n].db, d, a);
    var t := ss[n].db.minted[d].token;
    assert IsStale(ss[i].db.versions, t);
    StaleStays(ss[i].db.versions, ss[n].db.versions, t);
    assert MintedOk(ss[n].db, d);
    forall r | r in ss[n].reqs && r !in ss[i].reqs && ss[n].reqs[r].Presented? && ss[n].reqs[r].token.jti == d
      ensures !PassedCheck(ss[n].reqs[r].pc)
    {
      assert RequestOk(ss[n].db, r, ss[n].reqs[r]);
      LateRequestsAreStuck(cfg, ss, evs, i, n, r);
    }
  }

  /** Where a refresh can still be when its token goes stale and yet hand out tokens. */
  predicate BeyondRecall(v: Versions, t: Payload, pc: Pc) {
    || pc.Rotated?
    || (pc.AtRecheckChain? && VersionOf(v, ChainKey(t.email, t.chain)) <= t.chainVer)
  }

  /** The two rereads of a refresh see counters that have only grown. */
  lemma StepStillRecallable(cfg: Config, v: Versions, db: Db, r: ReqId, q: Request, newJti: Jti, ack: bool)
    requires q.Presented? && !IsDone(q) && Ready(db, q) && RequestOk(db, r, q)
    requires VersionsGrow(v, db.versions) && IsStale(v, q.token) && !BeyondRecall(v, q.token, q.pc)
    ensures !BeyondRecall(v, q.token, Stepped(cfg, db, r, q, newJti, ack).1)
  {
    var t := q.token;
    assert VersionOf(v, AccountKey(t.email)) <= VersionOf(db.versions, AccountKey(t.email));
    assert VersionOf(v, ChainKey(t.email, t.chain)) <= VersionOf(db.versions, ChainKey(t.email, t.chain));
  }

  lemma StillRecallable(cfg: Config, v: Versions, s: State, ev: Event, r: ReqId)
    requires Inv(s) && WellFormed(s) && Enabled(s, ev) && r in s.reqs && s.reqs[r].Presented?
    requires VersionsGrow(v, s.db.versions) && IsStale(v, s.reqs[r].token)
    requires !BeyondRecall(v, s.reqs[r].token, s.reqs[r].pc)
    ensures r in Next(cfg, s, ev).reqs && Next(cfg, s, ev).reqs[r].Presented?
    ensures Next(cfg, s, ev).reqs[r].token == s.reqs[r].token
    ensures !BeyondRecall(v, s.reqs[r].token, Next(cfg, s, ev).reqs[r].pc)
  {
    assert Ready(s.db, s.reqs[r]) && RequestOk(s.db, r, s.reqs[r]);
    hide Inv, WellFormed, RequestOk, Ready, IsStale, VersionsGrow, Stepped, Apply;
    if ev.Advance? && ev.r == r {
      StepStillRecallable(cfg, v, s.db, r, s.reqs[r], ev.newJti, ev.ack);
    }
  }

  lemma VersionsOnlyGrow(cfg: Config, ss: seq<State>, evs: seq<Event>, i: nat, j: nat)
    requires IsRun(cfg, ss, evs) && i <= j <= |evs|
    ensures VersionsGrow(ss[i].db.versions, ss[j].db.versions)
  {
    hide VersionsGrow;
    RunGrows(cfg, ss, evs, i, j);
  }

  /** A refresh already past its version check hands nothing out either, unless its second check had
      already read the counter that moved. */
  lemma {:induction false} RevokedRefreshReturnsNothing(cfg: Config, ss: seq<State>, evs: seq<Event>, i: nat, n: nat,
      r: ReqId)
    requires IsRun(cfg, ss, evs) && i <= n <= |evs|
    requires r in ss[i].reqs && ss[i].reqs[r].Presented? && IsStale(ss[i].db.versions, ss[i].reqs[r].token)
    requires !BeyondRecall(ss[i].db.versions, ss[i].reqs[r].token, ss[i].reqs[r].pc)
    ensures r in ss[n].reqs && ss[n].reqs[r].Presented? && ss[n].reqs[r].token == ss[i].reqs[r].token
    ensures !BeyondRecall(ss[i].db.versions, ss[n].reqs[r].token, ss[n].reqs[r].pc)
    decreases n
  {
    hide Inv, Next, Enabled, BeyondRecall, IsStale, Grows, VersionsGrow;
    if i < n {
      RevokedRefreshReturnsNothing(cfg, ss, evs, i, n - 1, r);
      RunInv(cfg, ss, evs, n - 1);
      VersionsOnlyGrow(cfg, ss, evs, i, n - 1);
      assert StepAt(cfg, ss, evs, n - 1);
      StillRecallable(cfg, ss[i].db.versions, ss[n - 1], evs[n - 1], r);
    }
  }
}
