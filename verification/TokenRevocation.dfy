/**
 Nobody loses a session without a revocation: which events end a token, counted
 from the moment at which the versions for its login were read.
 */
module TokenRevocation {
  import opened TokenStore
  import opened TokenRotation
  import opened TokenInvariants
  import opened TokenTheorems
  import opened TokenSingleUse

  /** The account or the chain of `t` is revoked: by its owner, or by a replay on the chain. */
  predicate Revokes(s: State, ev: Event, t: Payload) {
    match ev
    case RevokeAccount(email) => email == t.email
    case RevokeChain(email, chain) => email == t.email && chain == t.chain
    case Advance(r, _, _) =>
      && r in s.reqs && s.reqs[r].Presented? && s.reqs[r].pc.AtChainRevoke?
      && SameChain(s.reqs[r].token, t)
    case _ => false
  }

  predicate BothMatch(v: Versions, t: Payload) {
    AccountMatches(v, t) && ChainMatches(v, t)
  }

  lemma BumpMatters(v: Versions, key: string, t: Payload)
    ensures IsStale(Bumped(v, key), t) <==>
            IsStale(v, t)
              || (key == AccountKey(t.email) && VersionOf(v, key) >= t.accountVer)
              || (key == ChainKey(t.email, t.chain) && VersionOf(v, key) >= t.chainVer)
  {
  }

  lemma AccountBumpRevokes(v: Versions, email: string, t: Payload)
    requires BothMatch(v, t)
    ensures IsStale(Bumped(v, AccountKey(email)), t) <==> email == t.email
  {
    BumpMatters(v, AccountKey(email), t);
    AccountKeyInjective(email, t.email);
    AccountAndChainKeysDiffer(email, t.email, t.chain);
  }

  lemma ChainBumpRevokes(v: Versions, email: string, chain: string, t: Payload)
    requires BothMatch(v, t) && IsChainId(chain) && IsChainId(t.chain)
    ensures IsStale(Bumped(v, ChainKey(email, chain)), t) <==> email == t.email && chain == t.chain
  {
    BumpMatters(v, ChainKey(email, chain), t);
    ChainKeyInjective(email, chain, t.email, t.chain);
    AccountAndChainKeysDiffer(t.email, email, chain);
  }

  /** A step of a request bumps nothing but the chain it revokes. */
  lemma AdvanceBumps(cfg: Config, s: State, r: ReqId, newJti: Jti, ack: bool)
    requires WellFormed(s) && Enabled(s, Advance(r, newJti, ack))
    ensures var q, v := s.reqs[r], s.db.versions;
      Next(cfg, s, Advance(r, newJti, ack)).db.versions ==
      if q.pc.AtChainRevoke? then Bumped(v, ChainKey(q.token.email, q.token.chain)) else v
  {
    assert Ready(s.db, s.reqs[r]);
    hide WellFormed, Bumped, ChainKey, IsBenign, AccountMatches, ChainMatches;
  }

  /** A token that no counter has passed is ended by one event exactly if that revokes it. */
  lemma StaleNextIff(cfg: Config, s: State, ev: Event, t: Payload)
    requires Inv(s) && WellFormed(s) && Enabled(s, ev) && IsChainId(t.chain) && BothMatch(s.db.versions, t)
    ensures IsStale(Next(cfg, s, ev).db.versions, t) <==> Revokes(s, ev, t)
  {
    NotStale(s.db.versions, t);
    if ev.Advance? {
      AdvanceBumps(cfg, s, ev.r, ev.newJti, ev.ack);
      ReplayOnChain(s, ev.r);
    }
    hide IsStale, IsChainId, AccountKey, ChainKey, Inv, WellFormed, Bumped, BothMatch, Stepped;
    match ev {
      case RevokeAccount(email) => AccountBumpRevokes(s.db.versions, email, t);
      case RevokeChain(email, chain) => ChainBumpRevokes(s.db.versions, email, chain, t);
      case Advance(r, _, _) =>
        if s.reqs[r].pc.AtChainRevoke? {
          ChainBumpRevokes(s.db.versions, s.reqs[r].token.email, s.reqs[r].token.chain, t);
        }
      case _ =>
    }
  }

  lemma ReplayOnChain(s: State, r: ReqId)
    requires Inv(s) && r in s.reqs && s.reqs[r].Presented?
    ensures IsChainId(s.reqs[r].token.chain)
  {
    assert RequestOk(s.db, r, s.reqs[r]) && MintedOk(s.db, s.reqs[r].token.jti);
  }

  lemma NotStale(v: Versions, t: Payload)
    requires BothMatch(v, t)
    ensures !IsStale(v, t)
  {
  }

  lemma StillMatches(v: Versions, w: Versions, t: Payload)
    requires VersionsGrow(v, w) && BothMatch(v, t) && !IsStale(w, t)
    ensures BothMatch(w, t)
  {
    assert VersionOf(v, AccountKey(t.email)) <= VersionOf(w, AccountKey(t.email));
    assert VersionOf(v, ChainKey(t.email, t.chain)) <= VersionOf(w, ChainKey(t.email, t.chain));
  }

  ghost predicate RevokedBetween(ss: seq<State>, evs: seq<Event>, i: nat, n: nat, t: Payload)
    requires n <= |evs| && |ss| == |evs| + 1
  {
    exists k :: i <= k < n && Revokes(ss[k], evs[k], t)
  }

  lemma {:induction false} StaleSince(cfg: Config, ss: seq<State>, evs: seq<Event>, i: nat, n: nat, t: Payload)
    requires IsRun(cfg, ss, evs) && i <= n <= |evs| && IsChainId(t.chain) && BothMatch(ss[i].db.versions, t)
    ensures IsStale(ss[n].db.versions, t) <==> RevokedBetween(ss, evs, i, n, t)
    decreases n
  {
    hide Inv, IsStale, Next, Enabled, BothMatch, Revokes, VersionsGrow;
    if i == n {
      NotStale(ss[i].db.versions, t);
    } else {
      StaleSince(cfg, ss, evs, i, n - 1, t);
      RunInv(cfg, ss, evs, n - 1);
      assert StepAt(cfg, ss, evs, n - 1);
      if IsStale(ss[n - 1].db.versions, t) {
        VersionsOnlyGrow(cfg, ss, evs, n - 1, n);
        StaleStays(ss[n - 1].db.versions, ss[n].db.versions, t);
      } else {
        VersionsOnlyGrow(cfg, ss, evs, i, n - 1);
        StillMatches(ss[i].db.versions, ss[n - 1].db.versions, t);
        StaleNextIff(cfg, ss[n - 1], evs[n - 1], t);
      }
    }
  }

  // ---- the read at the root of a login ----------------------------------------------------

  /** Step `i` is the read of both counters for a login or for one half of its pair, by request `r`. */
  ghost predicate ReadsFor(ss: seq<State>, evs: seq<Event>, i: nat, r: ReqId, t: Payload)
    requires |ss| == |evs| + 1
  {
    && i < |evs| && evs[i].IssueRead? && evs[i].r == r && evs[i].email == t.email && evs[i].chain == t.chain
    && BothMatch(ss[i].db.versions, t)
  }

  predicate IsIssuing(s: State, r: ReqId, t: Payload) {
    r in s.reqs && s.reqs[r] == Issuing(t.kind, t.email, t.chain, t.accountVer, t.chainVer)
  }

  lemma IssuingStep(cfg: Config, s: State, ev: Event, r: ReqId, t: Payload)
    requires WellFormed(s) && Enabled(s, ev) && IsIssuing(Next(cfg, s, ev), r, t)
    ensures IsIssuing(s, r, t) ||
            (ev == IssueRead(r, t.kind, t.email, t.chain) && BothMatch(s.db.versions, t))
  {
    hide Apply, Stepped;
  }

  lemma {:induction false} IssuerRead(cfg: Config, ss: seq<State>, evs: seq<Event>, n: nat, r: ReqId, t: Payload)
    returns (i: nat)
    requires IsRun(cfg, ss, evs) && n <= |evs| && IsIssuing(ss[n], r, t)
    ensures i < n && ReadsFor(ss, evs, i, r, t)
  {
    hide Next, Enabled, BothMatch;
    assert n > 0;
    assert StepAt(cfg, ss, evs, n - 1);
    IssuingStep(cfg, ss[n - 1], evs[n - 1], r, t);
    if IsIssuing(ss[n - 1], r, t) {
      i := IssuerRead(cfg, ss, evs, n - 1, r, t);
    } else {
      i := n - 1;
    }
  }

  lemma RotationSignsChildren(cfg: Config, s: State, ev: Event, x: Jti)
    requires WellFormed(s) && Enabled(s, ev) && ev.Advance?
    requires x in Next(cfg, s, ev).db.minted && x !in s.db.minted
    ensures Next(cfg, s, ev).db.minted[x].path != []
  {
    assert Ready(s.db, s.reqs[ev.r]);
    hide WellFormed, Child, IsBenign, AccountMatches, ChainMatches, Bumped;
  }

  /** A token without ancestors is new only by a login's signature. */
  lemma RootSigned(cfg: Config, s: State, ev: Event, x: Jti)
    requires WellFormed(s) && Enabled(s, ev)
    requires x in Next(cfg, s, ev).db.minted && x !in s.db.minted && Next(cfg, s, ev).db.minted[x].path == []
    ensures IsIssuing(s, Next(cfg, s, ev).db.minted[x].signer, Next(cfg, s, ev).db.minted[x].token)
  {
    if ev.Advance? {
      RotationSignsChildren(cfg, s, ev, x);
    }
    hide WellFormed, Stepped;
  }

  lemma {:induction false} RootRead(cfg: Config, ss: seq<State>, evs: seq<Event>, n: nat, x: Jti) returns (i: nat)
    requires IsRun(cfg, ss, evs) && n <= |evs| && x in ss[n].db.minted && ss[n].db.minted[x].path == []
    ensures i < n && ReadsFor(ss, evs, i, ss[n].db.minted[x].signer, ss[n].db.minted[x].token)
  {
    hide Inv, Next, Enabled, ReadsFor, IsIssuing;
    assert n > 0;
    assert StepAt(cfg, ss, evs, n - 1);
    RunInv(cfg, ss, evs, n - 1);
    if x in ss[n - 1].db.minted {
      RunGrows(cfg, ss, evs, n - 1, n);
      i := RootRead(cfg, ss, evs, n - 1, x);
    } else {
      RootSigned(cfg, ss[n - 1], evs[n - 1], x);
      i := IssuerRead(cfg, ss, evs, n - 1, ss[n].db.minted[x].signer, ss[n].db.minted[x].token);
    }
  }

  /** The first token of a line of rotations has no ancestors and the versions of all that follow. */
  lemma RootOf(db: Db, x: Jti)
    requires DbInv(db) && x in db.minted
    ensures var root := Lineage(db, x)[0];
      root in db.minted && db.minted[root].path == [] && SameLineage(db.minted[root].token, db.minted[x].token)
  {
    assert MintedOk(db, x);
    if db.minted[x].path != [] {
      assert AncestorOk(db, db.minted[x], 0);
    }
  }

  /** In every reachable state, the versions of a signed token are those that its login read, and the
      token has stopped being current if and only if its account or its chain was revoked since. */
  lemma StaleIffRevoked(cfg: Config, ss: seq<State>, evs: seq<Event>, n: nat, x: Jti) returns (i: nat)
    requires IsRun(cfg, ss, evs) && n <= |evs| && x in ss[n].db.minted
    ensures Lineage(ss[n].db, x)[0] in ss[n].db.minted
    ensures i < n && ReadsFor(ss, evs, i, ss[n].db.minted[Lineage(ss[n].db, x)[0]].signer, ss[n].db.minted[x].token)
    ensures IsStale(ss[n].db.versions, ss[n].db.minted[x].token) <==>
            RevokedBetween(ss, evs, i, n, ss[n].db.minted[x].token)
    ensures IsCurrent(ss[n].db.versions, ss[n].db.minted[x].token) <==>
            !RevokedBetween(ss, evs, i, n, ss[n].db.minted[x].token)
  {
    hide RevokedBetween;
    var t := ss[n].db.minted[x].token;
    RunInv(cfg, ss, evs, n);
    RootOf(ss[n].db, x);
    i := RootRead(cfg, ss, evs, n, Lineage(ss[n].db, x)[0]);
    assert MintedOk(ss[n].db, x);
    StaleSince(cfg, ss, evs, i, n, t);
  }
}
