/**
 What one call does when no other runs beside it, from any reachable state and
 step by step: the answer and the tables, in the terms of the tables it found.
 */
module TokenSequential {
  import opened Options
  import opened TokenStore
  import opened TokenRotation
  import opened TokenInvariants
  import opened TokenTheorems

  /** From state `i` on only `r` moves, every answer arrives, and at the end `r` is done. */
  ghost predicate FinishesAlone(cfg: Config, ss: seq<State>, evs: seq<Event>, i: nat, r: ReqId) {
    && |ss| == |evs| + 1 && i <= |evs|
    && (forall k :: i <= k < |evs| ==> StepAt(cfg, ss, evs, k) && evs[k].Advance? && evs[k].r == r && evs[k].ack)
    && r in ss[|evs|].reqs && IsDone(ss[|evs|].reqs[r])
  }

  /** A call of its own: `r` presents a token in state 0. */
  ghost predicate CallsAlone(cfg: Config, ss: seq<State>, evs: seq<Event>, r: ReqId) {
    && |ss| == |evs| + 1 && |evs| > 0 && evs[0].Present? && evs[0].r == r && StepAt(cfg, ss, evs, 0)
    && FinishesAlone(cfg, ss, evs, 1, r)
  }

  /** One step, by `r`, from `i` to `i + 1`. */
  lemma StepsOn(cfg: Config, ss: seq<State>, evs: seq<Event>, i: nat, r: ReqId, t: Payload, pc: Pc)
    requires FinishesAlone(cfg, ss, evs, i, r) && At(ss[i], r, t, pc) && !IsDone(ss[i].reqs[r])
    ensures i < |evs| && evs[i] == Advance(r, evs[i].newJti, true)
    ensures Leads(cfg, ss[i], evs[i], ss[i + 1]) && Ready(ss[i].db, ss[i].reqs[r])
    ensures FinishesAlone(cfg, ss, evs, i + 1, r)
  {
    StepThere(cfg, ss, evs, i, r);
  }

  lemma StepThere(cfg: Config, ss: seq<State>, evs: seq<Event>, i: nat, r: ReqId)
    requires FinishesAlone(cfg, ss, evs, i, r)
    ensures i < |evs| ==> Leads(cfg, ss[i], evs[i], ss[i + 1]) && evs[i].Advance? && evs[i].r == r && evs[i].ack
  {
    assert i < |evs| ==> StepAt(cfg, ss, evs, i);
  }

  lemma Finished(cfg: Config, ss: seq<State>, evs: seq<Event>, i: nat, r: ReqId)
    requires FinishesAlone(cfg, ss, evs, i, r) && r in ss[i].reqs && IsDone(ss[i].reqs[r])
    ensures i == |evs|
  {
    StepThere(cfg, ss, evs, i, r);
  }

  /** Where the token check of `r` ends, and what it has changed: nothing. */
  lemma ChecksAlone(cfg: Config, ss: seq<State>, evs: seq<Event>, i: nat, r: ReqId, t: Payload)
    returns (j: nat)
    requires FinishesAlone(cfg, ss, evs, i, r) && At(ss[i], r, t, AtAccountVersion)
    ensures i <= j <= |evs| && FinishesAlone(cfg, ss, evs, j, r) && ss[j].db == ss[i].db
    ensures r in ss[j].reqs && ss[j].reqs[r].Presented? && ss[j].reqs[r] == ss[i].reqs[r].(pc := ss[j].reqs[r].pc)
    ensures
      var v, q := ss[i].db.versions, ss[i].reqs[r];
      ss[j].reqs[r].pc ==
      if VersionOf(v, AccountKey(t.email)) != t.accountVer || VersionOf(v, ChainKey(t.email, t.chain)) != t.chainVer
      then Rejected
      else if q.purpose.Rotate? then AtClaim
      else if q.purpose.expected.None? || q.purpose.expected.value == t.kind then Accepted else Rejected
  {
    hide WellFormed;
    StepsOn(cfg, ss, evs, i, r, t, AtAccountVersion);
    j := i + 1;
    if ss[j].reqs[r].pc.AtChainVersion? {
      StepsOn(cfg, ss, evs, j, r, t, AtChainVersion);
      j := j + 1;
    }
  }

  lemma Decoded(cfg: Config, ss: seq<State>, evs: seq<Event>, r: ReqId)
    requires CallsAlone(cfg, ss, evs, r) && Inv(ss[0])
    ensures evs[0].jti in ss[0].db.minted && ss[1].db == ss[0].db
    ensures var t := ss[0].db.minted[evs[0].jti].token;
      && t.jti == evs[0].jti && t.email != "" && t.chain != ""
      && r in ss[1].reqs && ss[1].reqs[r].Presented?
      && ss[1].reqs[r] == Presented(t, evs[0].purpose, evs[0].ip, ss[0].db.now, ss[1].reqs[r].pc)
      && ss[1].reqs[r].pc ==
          if ss[0].db.now < t.exp && (evs[0].purpose.Rotate? ==> t.kind.Refresh?) then AtAccountVersion else Rejected
  {
    assert MintedOk(ss[0].db, evs[0].jti);
  }

  /** `verify_token` alone: accepted exactly when unexpired, current in both counters and of the expected
      type; and nothing has changed. */
  lemma VerificationAlone(cfg: Config, ss: seq<State>, evs: seq<Event>, r: ReqId)
    requires CallsAlone(cfg, ss, evs, r) && Inv(ss[0]) && evs[0].purpose.Verify?
    ensures ss[|evs|].db == ss[0].db
    ensures evs[0].jti in ss[0].db.minted
    ensures var s, t := ss[0], ss[0].db.minted[evs[0].jti].token;
      At(ss[|evs|], r, t, Accepted) <==>
      && s.db.now < t.exp
      && VersionOf(s.db.versions, AccountKey(t.email)) == t.accountVer
      && VersionOf(s.db.versions, ChainKey(t.email, t.chain)) == t.chainVer
      && (evs[0].purpose.expected.None? || evs[0].purpose.expected.value == t.kind)
  {
    Decoded(cfg, ss, evs, r);
    hide Inv, FinishesAlone;
    var t := ss[0].db.minted[evs[0].jti].token;
    if ss[1].reqs[r].pc.Rejected? {
      Finished(cfg, ss, evs, 1, r);
    } else {
      var j := ChecksAlone(cfg, ss, evs, 1, r, t);
      Finished(cfg, ss, evs, j, r);
    }
  }

  // ---- refreshes --------------------------------------------------------------------------

  /** The counters after the chain of `t` was revoked: that chain's has moved by one, no other has. */
  ghost predicate RevokesChainOf(v: Versions, w: Versions, t: Payload) {
    forall key: string ::
      VersionOf(w, key) == VersionOf(v, key) + if key == "chain_ver:" + t.email + ":" + t.chain then 1 else 0
  }

  /** Within the window, and from the address of the claim. */
  predicate IsRepeat(cfg: Config, row: ClaimRow, now: nat, ip: Option<string>) {
    cfg.grace > 0 && 0 <= now - row.consumedAt <= cfg.grace && row.ip == ip
  }

  /** A claimed jti: let off without a trace, or the chain is revoked; nothing else changes. */
  lemma ReplaysAlone(cfg: Config, ss: seq<State>, evs: seq<Event>, i: nat, r: ReqId, t: Payload)
    requires FinishesAlone(cfg, ss, evs, i, r) && At(ss[i], r, t, AtClaim) && t.jti in ss[i].db.claims
    ensures At(ss[|evs|], r, t, Rejected)
    ensures var db, db' := ss[i].db, ss[|evs|].db;
      && db' == db.(versions := db'.versions)
      && (if IsRepeat(cfg, db.claims[t.jti], db.now, ss[i].reqs[r].ip) then db'.versions == db.versions
          else RevokesChainOf(db.versions, db'.versions, t))
  {
    hide WellFormed, FinishesAlone;
    StepsOn(cfg, ss, evs, i, r, t, AtClaim);
    assert At(ss[i + 1], r, t, AtReplayCheck);
    StepsOn(cfg, ss, evs, i + 1, r, t, AtReplayCheck);
    var j := i + 2;
    if ss[j].reqs[r].pc.AtChainRevoke? {
      StepsOn(cfg, ss, evs, j, r, t, AtChainRevoke);
      j := j + 1;
    }
    Finished(cfg, ss, evs, j, r);
  }

  /** Of the same login, with the same versions. */
  function Sibling(t: Payload, kind: TokenKind, jti: Jti, exp: nat): Payload {
    t.(kind := kind, jti := jti, exp := exp)
  }

  /** An unclaimed one: the claim, then a child of each kind. */
  lemma SignsAlone(cfg: Config, ss: seq<State>, evs: seq<Event>, i: nat, r: ReqId, t: Payload)
    requires FinishesAlone(cfg, ss, evs, i, r) && At(ss[i], r, t, AtClaim)
    requires t.jti in ss[i].db.minted && t.jti !in ss[i].db.claims
    ensures i + 3 <= |evs| && FinishesAlone(cfg, ss, evs, i + 3, r) && evs[i + 1].Advance? && evs[i + 2].Advance?
    ensures var db := ss[i].db; var path := db.minted[t.jti].path + [t.jti];
      var a, b := evs[i + 1].newJti, evs[i + 2].newJti;
      && ss[i + 3].db == db.(
           claims := db.claims[t.jti := ClaimRow(db.now, t.exp, ss[i].reqs[r].ip, t.accountVer, t.chainVer)],
           wins := db.wins[t.jti := Wins(db, t.jti) + [r]],
           minted := db.minted
             [a := Minted(Sibling(t, Access, a, db.now + cfg.accessTtl), path, r)]
             [b := Minted(Sibling(t, Refresh, b, db.now + cfg.refreshTtl), path, r)])
      && a !in db.minted && b !in db.minted && a != b && At(ss[i + 3], r, t, AtDecodeChild(a, b))
  {
    hide WellFormed, FinishesAlone, IsBenign, AccountMatches, ChainMatches;
    StepsOn(cfg, ss, evs, i, r, t, AtClaim);
    var row := ss[i + 1].reqs[r].pc.row;
    StepsOn(cfg, ss, evs, i + 1, r, t, AtSignAccess(row));
    StepsOn(cfg, ss, evs, i + 2, r, t, AtSignRefresh(row, evs[i + 1].newJti));
  }

  /** The pair is handed out after it has been checked itself, which takes a lifetime that is not empty. */
  lemma HandsOutAlone(cfg: Config, ss: seq<State>, evs: seq<Event>, i: nat, r: ReqId, t: Payload, a: Jti, b: Jti)
    requires FinishesAlone(cfg, ss, evs, i, r) && At(ss[i], r, t, AtDecodeChild(a, b)) && b in ss[i].db.minted
    requires AccountMatches(ss[i].db.versions, ss[i].db.minted[b].token)
    requires ChainMatches(ss[i].db.versions, ss[i].db.minted[b].token)
    ensures ss[|evs|].db == ss[i].db
    ensures At(ss[|evs|], r, t, if ss[i].db.now < ss[i].db.minted[b].token.exp then Rotated(a, b) else Rejected)
  {
    hide WellFormed, FinishesAlone, IsBenign, AccountMatches, ChainMatches;
    StepsOn(cfg, ss, evs, i, r, t, AtDecodeChild(a, b));
    var j := i + 1;
    if ss[j].reqs[r].pc.AtRecheckAccount? {
      StepsOn(cfg, ss, evs, j, r, t, AtRecheckAccount(a, b));
      StepsOn(cfg, ss, evs, j + 1, r, t, AtRecheckChain(a, b));
      j := j + 2;
    }
    Finished(cfg, ss, evs, j, r);
  }

  /** The claim is there, and the pair `a` and `b` with the lifetimes of their kinds; nothing else changed. */
  ghost predicate RotatesTo(cfg: Config, db: Db, db': Db, t: Payload, ip: Option<string>, r: ReqId, a: Jti, b: Jti) {
    && t.jti in db.minted && a !in db.minted && b !in db.minted && a != b
    && db'.now == db.now && db'.versions == db.versions && db'.swept == db.swept
    && db'.claims == db.claims[t.jti := ClaimRow(db.now, t.exp, ip, t.accountVer, t.chainVer)]
    && db'.minted == db.minted
         [a := Minted(Sibling(t, Access, a, db.now + cfg.accessTtl), db.minted[t.jti].path + [t.jti], r)]
         [b := Minted(Sibling(t, Refresh, b, db.now + cfg.refreshTtl), db.minted[t.jti].path + [t.jti], r)]
  }

  lemma RotatesAlone(cfg: Config, ss: seq<State>, evs: seq<Event>, i: nat, r: ReqId, t: Payload)
    returns (a: Jti, b: Jti)
    requires FinishesAlone(cfg, ss, evs, i, r) && At(ss[i], r, t, AtClaim)
    requires t.jti in ss[i].db.minted && t.jti !in ss[i].db.claims
    requires AccountMatches(ss[i].db.versions, t) && ChainMatches(ss[i].db.versions, t)
    ensures RotatesTo(cfg, ss[i].db, ss[|evs|].db, t, ss[i].reqs[r].ip, r, a, b)
    ensures At(ss[|evs|], r, t, if cfg.refreshTtl > 0 then Rotated(a, b) else Rejected)
  {
    hide FinishesAlone;
    SignsAlone(cfg, ss, evs, i, r, t);
    a, b := evs[i + 1].newJti, evs[i + 2].newJti;
    HandsOutAlone(cfg, ss, evs, i + 3, r, t, a, b);
  }

  /** A token that `refresh_tokens` goes on to claim. */
  predicate IsRotatable(db: Db, t: Payload) {
    && db.now < t.exp && t.kind.Refresh?
    && VersionOf(db.versions, AccountKey(t.email)) == t.accountVer
    && VersionOf(db.versions, ChainKey(t.email, t.chain)) == t.chainVer
  }

  /** `refresh_tokens` alone. A token that may not rotate changes nothing. One that may and is unclaimed is
      claimed, and a child of each kind is signed, of the same login and versions, and handed out; one
      that is claimed is let off as a repeat, or its chain is revoked. */
  lemma RefreshAlone(cfg: Config, ss: seq<State>, evs: seq<Event>, r: ReqId)
    requires CallsAlone(cfg, ss, evs, r) && Inv(ss[0]) && evs[0].purpose.Rotate?
    ensures evs[0].jti in ss[0].db.minted
    ensures var db, db', t := ss[0].db, ss[|evs|].db, ss[0].db.minted[evs[0].jti].token;
      if !IsRotatable(db, t) then
        db' == db && At(ss[|evs|], r, t, Rejected)
      else if t.jti in db.claims then
        && db' == db.(versions := db'.versions) && At(ss[|evs|], r, t, Rejected)
        && (if IsRepeat(cfg, db.claims[t.jti], db.now, evs[0].ip) then db'.versions == db.versions
            else RevokesChainOf(db.versions, db'.versions, t))
      else
        exists a: Jti, b: Jti ::
          && RotatesTo(cfg, db, db', t, evs[0].ip, r, a, b)
          && At(ss[|evs|], r, t, if cfg.refreshTtl > 0 then Rotated(a, b) else Rejected)
  {
    Decoded(cfg, ss, evs, r);
    hide Inv, FinishesAlone, RevokesChainOf, IsRepeat, RotatesTo;
    var t := ss[0].db.minted[evs[0].jti].token;
    if ss[1].reqs[r].pc.Rejected? {
      Finished(cfg, ss, evs, 1, r);
    } else {
      var j := ChecksAlone(cfg, ss, evs, 1, r, t);
      if ss[j].reqs[r].pc.Rejected? {
        Finished(cfg, ss, evs, j, r);
      } else if t.jti in ss[j].db.claims {
        ReplaysAlone(cfg, ss, evs, j, r, t);
      } else {
        var a, b := RotatesAlone(cfg, ss, evs, j, r, t);
      }
    }
  }

  /** A login's two steps: the token is of the kind, account and chain asked for, carries both counters as
      they stand and lives for its kind's time; nothing else changes. */
  lemma LoginAlone(cfg: Config, s: State, r: ReqId, kind: TokenKind, email: string, chain: string, jti: Jti)
    requires WellFormed(s) && Enabled(s, IssueRead(r, kind, email, chain)) && jti !in s.db.minted
    ensures var s' := Next(cfg, s, IssueRead(r, kind, email, chain));
      && WellFormed(s') && Enabled(s', IssueSign(r, jti))
      && Next(cfg, s', IssueSign(r, jti)).db == s.db.(minted := s.db.minted[jti := Minted(
           Payload(email, kind, jti, chain, VersionOf(s.db.versions, "account_ver:" + email),
                   VersionOf(s.db.versions, "chain_ver:" + email + ":" + chain),
                   s.db.now + if kind.Access? then cfg.accessTtl else cfg.refreshTtl), [], r)])
  {
    var s' := Next(cfg, s, IssueRead(r, kind, email, chain));
    forall o <- s'.reqs
      ensures Ready(s'.db, s'.reqs[o])
    {
      if o != r {
        assert Ready(s.db, s.reqs[o]);
      }
    }
    hide Stepped;
  }
}
