/**
 Replays judged by what happened, not by what the claim row says: who claimed
 the jti, when and from where.
 */
module TokenReplay {
  import opened TokenStore
  import opened TokenRotation
  import opened TokenTheorems
  import opened TokenSingleUse

  /** At step `i` request `w` got the claim of `jti` inserted. */
  ghost predicate ClaimsAt(ss: seq<State>, evs: seq<Event>, i: nat, w: ReqId, jti: Jti)
    requires |ss| == |evs| + 1
  {
    && i < |evs| && evs[i].Advance? && evs[i].r == w && w in ss[i].reqs && ss[i].reqs[w].Presented?
    && jti !in ss[i].db.claims && jti in ss[i + 1].db.claims
  }

  ghost predicate StaysClaimed(ss: seq<State>, i: nat, n: nat, jti: Jti)
    requires n < |ss|
  {
    forall k :: i < k <= n ==> jti in ss[k].db.claims
  }

  /** The claim says when it was made, and from which address. */
  lemma ClaimRecords(cfg: Config, s: State, ev: Event, jti: Jti)
    requires WellFormed(s) && Enabled(s, ev) && jti !in s.db.claims && jti in Next(cfg, s, ev).db.claims
    ensures ev.Advance? && s.reqs[ev.r].Presented? && s.reqs[ev.r].pc.AtClaim? && s.reqs[ev.r].token.jti == jti
    ensures Next(cfg, s, ev).db.claims[jti].consumedAt == s.db.now
    ensures Next(cfg, s, ev).db.claims[jti].ip == s.reqs[ev.r].ip
  {
    if ev.Advance? {
      assert Ready(s.db, s.reqs[ev.r]);
    }
    hide WellFormed, IsBenign, AccountMatches, ChainMatches, Child;
  }

  lemma RowStaysOneStep(cfg: Config, s: State, ev: Event, jti: Jti)
    requires WellFormed(s) && Enabled(s, ev) && jti in s.db.claims && jti in Next(cfg, s, ev).db.claims
    ensures Next(cfg, s, ev).db.claims[jti] == s.db.claims[jti]
  {
    if ev.Advance? {
      assert Ready(s.db, s.reqs[ev.r]);
    }
    hide WellFormed, IsBenign, AccountMatches, ChainMatches, Child;
  }

  lemma {:induction false} RowStays(cfg: Config, ss: seq<State>, evs: seq<Event>, i: nat, n: nat, jti: Jti)
    requires IsRun(cfg, ss, evs) && i < n <= |evs| && StaysClaimed(ss, i, n, jti)
    ensures ss[n].db.claims[jti] == ss[i + 1].db.claims[jti]
    decreases n
  {
    hide WellFormed, Enabled, Next;
    if i + 1 < n {
      RowStays(cfg, ss, evs, i, n - 1, jti);
      assert StepAt(cfg, ss, evs, n - 1);
      RowStaysOneStep(cfg, ss[n - 1], evs[n - 1], jti);
    }
  }

  /** A check, at step `n`, of a replay by `r` while the claim of `w` stands: it changes no table, and lets
      `r` off if and only if the grace window is not empty, has not passed since `w` claimed, and both
      came from one address. Otherwise `r` goes on to revoke. */
  lemma ReplayIsForgivenIff(cfg: Config, ss: seq<State>, evs: seq<Event>, i: nat, n: nat, w: ReqId, r: ReqId,
      t: Payload)
    requires IsRun(cfg, ss, evs) && i < n < |evs| && ClaimsAt(ss, evs, i, w, t.jti) && StaysClaimed(ss, i, n, t.jti)
    requires At(ss[n], r, t, AtReplayCheck) && evs[n].Advance? && evs[n].r == r
    ensures ss[n + 1].db == ss[n].db
    ensures At(ss[n + 1], r, t, Rejected) <==>
            cfg.grace > 0 && ss[n].db.now - ss[i].db.now <= cfg.grace && ss[n].reqs[r].ip == ss[i].reqs[w].ip
    ensures At(ss[n + 1], r, t, Rejected) || At(ss[n + 1], r, t, AtChainRevoke)
  {
    assert StepAt(cfg, ss, evs, i) && StepAt(cfg, ss, evs, n);
    ClaimRecords(cfg, ss[i], evs[i], t.jti);
    RowStays(cfg, ss, evs, i, n, t.jti);
    RunGrows(cfg, ss, evs, i, n);
    CheckStep(cfg, ss[n], evs[n], r, t);
  }

  lemma CheckStep(cfg: Config, s: State, ev: Event, r: ReqId, t: Payload)
    requires WellFormed(s) && Enabled(s, ev) && ev.Advance? && ev.r == r && At(s, r, t, AtReplayCheck)
    requires t.jti in s.db.claims
    ensures Next(cfg, s, ev).db == s.db
    ensures At(Next(cfg, s, ev), r, t, Rejected) || At(Next(cfg, s, ev), r, t, AtChainRevoke)
    ensures var row := s.db.claims[t.jti];
      At(Next(cfg, s, ev), r, t, Rejected) <==>
      cfg.grace > 0 && 0 <= s.db.now - row.consumedAt <= cfg.grace && row.ip == s.reqs[r].ip
  {
    assert Ready(s.db, s.reqs[r]);
  }

  /** `r` does not move between `n` and `m`. */
  ghost predicate Waits(evs: seq<Event>, n: nat, m: nat, r: ReqId)
    requires m <= |evs|
  {
    forall k :: n <= k < m ==> evs[k].Tick? || evs[k].RevokeAccount? || evs[k].RevokeChain? || evs[k].Sweep? ||
                               evs[k].r != r
  }

  lemma {:induction false} StaysPut(cfg: Config, ss: seq<State>, evs: seq<Event>, n: nat, m: nat, r: ReqId)
    requires IsRun(cfg, ss, evs) && n <= m <= |evs| && Waits(evs, n, m, r) && r in ss[n].reqs
    ensures r in ss[m].reqs && ss[m].reqs[r] == ss[n].reqs[r]
    decreases m
  {
    hide Apply, Stepped;
    if n < m {
      StaysPut(cfg, ss, evs, n, m - 1, r);
      assert StepAt(cfg, ss, evs, m - 1);
    }
  }

  /** A replay that is not let off revokes with its next step: every token of the chain signed until then
      is stale for good, and no verdict on another chain changes. */
  lemma UnforgivenReplayRevokes(cfg: Config, ss: seq<State>, evs: seq<Event>, i: nat, n: nat, m: nat, w: ReqId,
      r: ReqId, t: Payload, end: nat)
    requires IsRun(cfg, ss, evs) && i < n < m < end <= |evs|
    requires ClaimsAt(ss, evs, i, w, t.jti) && StaysClaimed(ss, i, n, t.jti)
    requires At(ss[n], r, t, AtReplayCheck) && evs[n].Advance? && evs[n].r == r
    requires Waits(evs, n + 1, m, r) && evs[m].Advance? && evs[m].r == r
    requires cfg.grace <= 0 || ss[n].db.now - ss[i].db.now > cfg.grace || ss[n].reqs[r].ip != ss[i].reqs[w].ip
    ensures forall x <- ss[m].db.minted ::
              SameChain(t, ss[m].db.minted[x].token) ==> IsStale(ss[end].db.versions, ss[m].db.minted[x].token)
    ensures forall x <- ss[m].db.minted ::
              !SameChain(t, ss[m].db.minted[x].token) ==>
              IsCurrent(ss[m + 1].db.versions, ss[m].db.minted[x].token) ==
                  IsCurrent(ss[m].db.versions, ss[m].db.minted[x].token)
  {
    ReplayIsForgivenIff(cfg, ss, evs, i, n, w, r, t);
    StaysPut(cfg, ss, evs, n + 1, m, r);
    assert At(ss[m], r, t, AtChainRevoke);
    hide IsRun, IsStale, IsCurrent, SameChain;
    forall x <- ss[m].db.minted
      ensures SameChain(t, ss[m].db.minted[x].token) ==> IsStale(ss[end].db.versions, ss[m].db.minted[x].token)
      ensures !SameChain(t, ss[m].db.minted[x].token) ==>
              IsCurrent(ss[m + 1].db.versions, ss[m].db.minted[x].token) ==
                  IsCurrent(ss[m].db.versions, ss[m].db.minted[x].token)
    {
      ReplayRevokesExactlyTheChain(cfg, ss, evs, m, end, x);
    }
  }
}
