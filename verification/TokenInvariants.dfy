/**
 What every reachable state of the rotation protocol satisfies, and the proof
 that every event preserves it.
 */
module TokenInvariants {
  import opened Options
  import opened TokenStore
  import opened TokenRotation

  /** Same account, same login, same version snapshot: what rotation carries forward unchanged. */
  predicate SameLineage(a: Payload, b: Payload) {
    a.email == b.email && a.chain == b.chain && a.accountVer == b.accountVer && a.chainVer == b.chainVer
  }

  /** No request has a counter from the future, so embedded versions never exceed stored ones. */
  predicate Snapshot(versions: Versions, email: string, chain: string, accountVer: nat, chainVer: nat) {
    && email != "" && IsChainId(chain)
    && accountVer <= VersionOf(versions, AccountKey(email))
    && chainVer <= VersionOf(versions, ChainKey(email, chain))
  }

  predicate MintedOk(db: Db, jti: Jti)
    requires jti in db.minted
  {
    var m := db.minted[jti];
    && m.token.jti == jti
    && Snapshot(db.versions, m.token.email, m.token.chain, m.token.accountVer, m.token.chainVer)
    && (forall k :: 0 <= k < |m.path| ==> AncestorOk(db, m, k))
  }

  predicate AncestorOk(db: Db, m: Minted, k: nat)
    requires k < |m.path|
  {
    && m.path[k] in db.minted
    && db.minted[m.path[k]].token.kind == Refresh
    && SameLineage(db.minted[m.path[k]].token, m.token)
    && db.minted[m.path[k]].path == m.path[..k]
    && Wins(db, m.path[k]) != []
  }

  predicate ClaimOk(db: Db, jti: Jti)
    requires jti in db.claims
  {
    && jti in db.minted
    && db.claims[jti].expiresAt == db.minted[jti].token.exp
    && db.claims[jti].accountVer == db.minted[jti].token.accountVer
    && db.claims[jti].chainVer == db.minted[jti].token.chainVer
    && Wins(db, jti) != []
  }

  predicate SweptOk(db: Db, jti: Jti) {
    jti in db.minted && db.minted[jti].token.exp < db.now && Wins(db, jti) != []
  }

  predicate BeforeClaim(pc: Pc) {
    pc.AtAccountVersion? || pc.AtChainVersion? || pc.AtClaim?
  }

  predicate WinOk(s: State, jti: Jti, r: ReqId) {
    && (jti in s.db.claims || jti in s.db.swept)
    && r in s.reqs && s.reqs[r].Presented? && s.reqs[r].token.jti == jti && !BeforeClaim(s.reqs[r].pc)
  }

  predicate HoldsClaim(pc: Pc) {
    pc.AtSignAccess? || pc.AtSignRefresh? || pc.AtDecodeChild? || pc.AtRecheckAccount? || pc.AtRecheckChain? ||
        pc.Rotated?
  }

  predicate RequestOk(db: Db, r: ReqId, q: Request) {
    match q
    case Finished => true
    case Issuing(kind, email, chain, av, cv) => Snapshot(db.versions, email, chain, av, cv)
    case Presented(t, purpose, ip, decodedAt, pc) =>
      && t.jti in db.minted && db.minted[t.jti].token == t
      && decodedAt <= db.now
      && (!pc.Rejected? ==> decodedAt < t.exp)
      && (!pc.Rejected? && purpose == Rotate ==> t.kind == Refresh)
      && (pc.Accepted? ==> purpose.Verify?)
      && (!pc.AtAccountVersion? && !pc.AtChainVersion? && !pc.Accepted? && !pc.Rejected? ==> purpose == Rotate)
      && (HoldsClaim(pc) ==> r in Wins(db, t.jti))
      && (pc.AtSignAccess? || pc.AtSignRefresh? ==> pc.row.accountVer == t.accountVer && pc.row.chainVer == t.chainVer)
      && (pc.AtDecodeChild? || pc.AtRecheckAccount? || pc.AtRecheckChain? || pc.Rotated? ==>
            ChildOf(db, pc.child, t.jti, Refresh) && ChildOf(db, pc.access, t.jti, Access))
      && (pc.AtSignRefresh? ==> ChildOf(db, pc.access, t.jti, Access))
  }

  predicate ChildOf(db: Db, child: Jti, parent: Jti, kind: TokenKind) {
    && child in db.minted && parent in db.minted
    && db.minted[child].token.kind == kind
    && db.minted[child].path == db.minted[parent].path + [parent]
    && SameLineage(db.minted[child].token, db.minted[parent].token)
  }

  predicate MaySign(pc: Pc, kind: TokenKind) {
    BeforeClaim(pc) || pc.AtSignAccess? || (kind == Refresh && pc.AtSignRefresh?)
  }

  /** A token minted by a rotation points at the request that signed it, which can sign no second one. */
  predicate SignerOk(s: State, jti: Jti)
    requires jti in s.db.minted
  {
    SignedBy(s, s.db.minted[jti])
  }

  predicate SignedBy(s: State, m: Minted) {
    m.path != [] ==>
      && m.signer in s.reqs && s.reqs[m.signer].Presented?
      && s.reqs[m.signer].token.jti == m.path[|m.path| - 1]
      && m.signer in Wins(s.db, m.path[|m.path| - 1])
      && !MaySign(s.reqs[m.signer].pc, m.token.kind)
  }

  /** Two tokens that the same request would have signed as the same half of its pair. */
  predicate Twins(db: Db, x: Jti, y: Jti) {
    && x in db.minted && y in db.minted && db.minted[x].path != [] && db.minted[y].path != []
    && db.minted[x].signer == db.minted[y].signer && db.minted[x].token.kind == db.minted[y].token.kind
  }

  ghost predicate SignedOnce(db: Db) {
    forall x, y :: Twins(db, x, y) ==> x == y
  }

  ghost predicate DbInv(db: Db) {
    && (forall j <- db.minted :: MintedOk(db, j))
    && (forall j <- db.claims :: ClaimOk(db, j))
    && (forall j <- db.swept :: SweptOk(db, j))
  }

  ghost predicate ReqInv(s: State) {
    && (forall r <- s.reqs :: RequestOk(s.db, r, s.reqs[r]))
    && (forall j, r {:trigger r in Wins(s.db, j)} :: r in Wins(s.db, j) ==> WinOk(s, j, r))
  }

  ghost predicate SignInv(s: State) {
    && (forall j <- s.db.minted :: SignerOk(s, j))
    && SignedOnce(s.db)
  }

  ghost predicate Inv(s: State) {
    DbInv(s.db) && ReqInv(s) && SignInv(s)
  }

  lemma InitialInv(s: State)
    requires Initial(s)
    ensures Inv(s)
  {
  }

  lemma InvWellFormed(s: State)
    requires ReqInv(s)
    ensures WellFormed(s)
  {
    forall r <- s.reqs
      ensures Ready(s.db, s.reqs[r])
    {
      assert RequestOk(s.db, r, s.reqs[r]);
    }
  }

  /** How the tables can change in one event; history and counters only grow. */
  ghost predicate DbStep(a: Db, b: Db) {
    && a.now <= b.now
    && VersionsGrow(a.versions, b.versions)
    && (forall j <- a.minted :: j in b.minted && b.minted[j] == a.minted[j])
    && (forall j: Jti {:trigger Wins(b, j)} :: Wins(a, j) <= Wins(b, j))
    && a.swept <= b.swept
    && (forall j <- a.claims :: (j in b.claims && b.claims[j] == a.claims[j]) || j in b.swept)
  }

  /** When an effect may happen: what the protocol guarantees about its argument. */
  predicate EffectOk(db: Db, e: Effect) {
    match e
    case Nothing => true
    case Clock(to) => db.now <= to
    case Bump(key) => true
    case Delete(batch) => batch <= db.claims.Keys && forall j <- batch :: db.claims[j].expiresAt < db.now
    case Sign(m) =>
      && m.token.jti !in db.minted
      && Snapshot(db.versions, m.token.email, m.token.chain, m.token.accountVer, m.token.chainVer)
      && (m.path != [] ==> IsChild(db, m))
    case Insert(r, t, row) =>
      && t.jti in db.minted && db.minted[t.jti].token == t && t.jti !in db.claims
      && row.expiresAt == t.exp && row.accountVer == t.accountVer && row.chainVer == t.chainVer
  }

  predicate IsChild(db: Db, m: Minted)
    requires m.path != []
  {
    var parent := m.path[|m.path| - 1];
    && parent in db.minted && db.minted[parent].token.kind == Refresh
    && m.path == db.minted[parent].path + [parent]
    && SameLineage(m.token, db.minted[parent].token)
    && Wins(db, parent) != []
  }

  lemma ApplyIsDbStep(db: Db, e: Effect)
    requires EffectOk(db, e)
    ensures DbStep(db, Apply(db, e))
  {
  }

  lemma AncestorMonotone(a: Db, b: Db, m: Minted, k: nat)
    requires DbStep(a, b) && k < |m.path| && AncestorOk(a, m, k)
    ensures AncestorOk(b, m, k)
  {
    assert Wins(a, m.path[k]) <= Wins(b, m.path[k]);
  }

  lemma MintedMonotone(a: Db, b: Db, jti: Jti)
    requires DbStep(a, b) && jti in a.minted && MintedOk(a, jti)
    ensures jti in b.minted && MintedOk(b, jti)
  {
    forall k | 0 <= k < |a.minted[jti].path|
      ensures AncestorOk(b, b.minted[jti], k)
    {
      AncestorMonotone(a, b, a.minted[jti], k);
    }
  }

  lemma RequestMonotone(a: Db, b: Db, r: ReqId, q: Request)
    requires DbStep(a, b) && RequestOk(a, r, q)
    ensures RequestOk(b, r, q)
  {
    if q.Presented? {
      assert Wins(a, q.token.jti) <= Wins(b, q.token.jti);
    }
  }

  /** A freshly signed child meets the token invariant because its parent does. */
  lemma ChildMintedOk(a: Db, b: Db, m: Minted)
    requires DbStep(a, b) && m.token.jti in b.minted && b.minted[m.token.jti] == m && m.path != [] && IsChild(a, m)
    requires MintedOk(a, m.path[|m.path| - 1])
    requires Snapshot(b.versions, m.token.email, m.token.chain, m.token.accountVer, m.token.chainVer)
    ensures MintedOk(b, m.token.jti)
  {
    var parent := m.path[|m.path| - 1];
    assert Wins(a, parent) <= Wins(b, parent);
    MintedMonotone(a, b, parent);
    var p := b.minted[parent];
    forall k | 0 <= k < |m.path|
      ensures AncestorOk(b, m, k)
    {
      if k < |p.path| {
        assert AncestorOk(b, p, k);
        assert m.path[..k] == p.path[..k];
      } else {
        assert m.path[..k] == p.path;
      }
    }
  }

  lemma ApplyKeepsDbInv(db: Db, e: Effect)
    requires DbInv(db) && EffectOk(db, e)
    ensures DbInv(Apply(db, e))
  {
    var b := Apply(db, e);
    ApplyIsDbStep(db, e);
    forall j <- b.minted
      ensures MintedOk(b, j)
    {
      if j in db.minted {
        MintedMonotone(db, b, j);
      } else if e.m.path != [] {
        ChildMintedOk(db, b, e.m);
      }
    }
    forall j <- b.claims
      ensures ClaimOk(b, j)
    {
      assert Wins(db, j) <= Wins(b, j);
      assert j in db.claims ==> ClaimOk(db, j);
    }
    forall j <- b.swept
      ensures SweptOk(b, j)
    {
      assert Wins(db, j) <= Wins(b, j);
      if j in db.swept {
        assert SweptOk(db, j);
      } else {
        assert ClaimOk(db, j);
      }
    }
  }

  /** One step of one request, on the tables alone. */
  lemma SteppedEffectOk(cfg: Config, db: Db, r: ReqId, q: Request, newJti: Jti, ack: bool)
    requires q.Presented? && !IsDone(q) && Ready(db, q) && newJti !in db.minted
    requires RequestOk(db, r, q) && MintedOk(db, q.token.jti)
    ensures EffectOk(db, Stepped(cfg, db, r, q, newJti, ack).0)
  {
  }

  lemma SteppedOk(cfg: Config, db: Db, r: ReqId, q: Request, newJti: Jti, ack: bool)
    requires q.Presented? && !IsDone(q) && Ready(db, q) && newJti !in db.minted
    requires RequestOk(db, r, q) && MintedOk(db, q.token.jti)
    ensures RequestOk(Apply(db, Stepped(cfg, db, r, q, newJti, ack).0), r,
                      q.(pc := Stepped(cfg, db, r, q, newJti, ack).1))
  {
    if q.pc.AtClaim? || q.pc.AtSignAccess? || q.pc.AtSignRefresh? || q.pc.AtChainRevoke? {
      var b := Apply(db, Stepped(cfg, db, r, q, newJti, ack).0);
      SteppedEffectOk(cfg, db, r, q, newJti, ack);
      ApplyIsDbStep(db, Stepped(cfg, db, r, q, newJti, ack).0);
      RequestMonotone(db, b, r, q);
    }
  }

  lemma EveryEffectIsOk(cfg: Config, s: State, ev: Event)
    requires DbInv(s.db) && ReqInv(s) && WellFormed(s) && Enabled(s, ev)
    ensures EffectOk(s.db, EffectOf(cfg, s, ev))
  {
    if ev.IssueSign? {
      assert RequestOk(s.db, ev.r, s.reqs[ev.r]);
    } else if ev.Advance? {
      var q := s.reqs[ev.r];
      assert RequestOk(s.db, ev.r, q) && Ready(s.db, q) && MintedOk(s.db, q.token.jti);
      SteppedEffectOk(cfg, s.db, ev.r, q, ev.newJti, ev.ack);
    }
  }

  lemma MoverOk(cfg: Config, s: State, ev: Event)
    requires DbInv(s.db) && ReqInv(s) && WellFormed(s) && Enabled(s, ev) && Mover(ev).Some?
    ensures RequestOk(Next(cfg, s, ev).db, ev.r, Moved(cfg, s, ev))
  {
    match ev {
      case IssueRead(r, kind, email, chain) =>
      case IssueSign(r, newJti) =>
      case Present(r, jti, purpose, ip) =>
        assert MintedOk(s.db, jti);
      case Advance(r, newJti, ack) =>
        var q := s.reqs[r];
        assert RequestOk(s.db, r, q) && Ready(s.db, q) && MintedOk(s.db, q.token.jti);
        SteppedOk(cfg, s.db, r, q, newJti, ack);
      case Fail(r) =>
        assert RequestOk(s.db, r, s.reqs[r]);
    }
  }

  /** Only a claim changes who won a jti, and only by adding the request itself. */
  lemma WinsChange(cfg: Config, s: State, ev: Event, j: Jti)
    requires WellFormed(s) && Enabled(s, ev)
    ensures
      || Wins(Next(cfg, s, ev).db, j) == Wins(s.db, j)
      || (&& ev.Advance? && s.reqs[ev.r].pc.AtClaim? && s.reqs[ev.r].token.jti == j && j !in s.db.claims
          && Wins(Next(cfg, s, ev).db, j) == Wins(s.db, j) + [ev.r]
          && j in Next(cfg, s, ev).db.claims && !BeforeClaim(Next(cfg, s, ev).reqs[ev.r].pc))
  {
  }

  /** A request past its claim stays past it, with its token; a won jti stays claimed or swept. */
  lemma WinOkPreserved(cfg: Config, s: State, ev: Event, j: Jti, r: ReqId)
    requires WellFormed(s) && Enabled(s, ev) && WinOk(s, j, r)
    ensures WinOk(Next(cfg, s, ev), j, r)
  {
    assert Ready(s.db, s.reqs[r]);
  }

  lemma WinsPreserved(cfg: Config, s: State, ev: Event, j: Jti, r: ReqId)
    requires ReqInv(s) && WellFormed(s) && Enabled(s, ev) && r in Wins(Next(cfg, s, ev).db, j)
    ensures WinOk(Next(cfg, s, ev), j, r)
  {
    WinsChange(cfg, s, ev, j);
    if r in Wins(s.db, j) {
      WinOkPreserved(cfg, s, ev, j, r);
    }
  }

  lemma ReqInvPreserved(cfg: Config, s: State, ev: Event)
    requires Inv(s) && WellFormed(s) && Enabled(s, ev)
    ensures ReqInv(Next(cfg, s, ev))
  {
    var b := Next(cfg, s, ev);
    EveryEffectIsOk(cfg, s, ev);
    ApplyIsDbStep(s.db, EffectOf(cfg, s, ev));
    forall r <- b.reqs
      ensures RequestOk(b.db, r, b.reqs[r])
    {
      if Mover(ev) == Some(r) {
        MoverOk(cfg, s, ev);
      } else {
        RequestMonotone(s.db, b.db, r, s.reqs[r]);
      }
    }
    forall j, r | r in Wins(b.db, j)
      ensures WinOk(b, j, r)
    {
      WinsPreserved(cfg, s, ev, j, r);
    }
  }

  /** A token that this event signs, by the request it moves. */
  lemma NewlySigned(cfg: Config, s: State, ev: Event, j: Jti)
    requires WellFormed(s) && Enabled(s, ev) && j in Next(cfg, s, ev).db.minted && j !in s.db.minted
    requires Next(cfg, s, ev).db.minted[j].path != []
    ensures ev.Advance? && ev.newJti == j
    ensures var q, m := s.reqs[ev.r], Next(cfg, s, ev).db.minted[j];
      && q.Presented? && HoldsClaim(q.pc) && MaySign(q.pc, m.token.kind)
      && m.signer == ev.r && m.path[|m.path| - 1] == q.token.jti
      && var q' := Next(cfg, s, ev).reqs[ev.r]; q'.Presented? && q'.token == q.token && !MaySign(q'.pc, m.token.kind)
  {
  }

  lemma NewlySignedOk(cfg: Config, s: State, ev: Event, j: Jti)
    requires ReqInv(s) && WellFormed(s) && Enabled(s, ev) && j in Next(cfg, s, ev).db.minted && j !in s.db.minted
    ensures SignerOk(Next(cfg, s, ev), j)
  {
    if Next(cfg, s, ev).db.minted[j].path != [] {
      NewlySigned(cfg, s, ev, j);
      assert RequestOk(s.db, ev.r, s.reqs[ev.r]);
      WinsGrow(cfg, s, ev, s.reqs[ev.r].token.jti);
    }
  }

  lemma MintedStays(cfg: Config, s: State, ev: Event, j: Jti)
    requires DbInv(s.db) && ReqInv(s) && WellFormed(s) && Enabled(s, ev) && j in s.db.minted
    ensures j in Next(cfg, s, ev).db.minted && Next(cfg, s, ev).db.minted[j] == s.db.minted[j]
  {
    EveryEffectIsOk(cfg, s, ev);
    ApplyIsDbStep(s.db, EffectOf(cfg, s, ev));
  }

  /** A request that has signed cannot sign again. */
  lemma NoSecondSignature(cfg: Config, s: State, ev: Event, r: ReqId, kind: TokenKind)
    requires WellFormed(s) && Enabled(s, ev) && r in s.reqs && s.reqs[r].Presented? && !MaySign(s.reqs[r].pc, kind)
    ensures r in Next(cfg, s, ev).reqs && Next(cfg, s, ev).reqs[r].Presented?
    ensures Next(cfg, s, ev).reqs[r].token == s.reqs[r].token && !MaySign(Next(cfg, s, ev).reqs[r].pc, kind)
  {
    assert Ready(s.db, s.reqs[r]);
  }

  lemma WinsGrow(cfg: Config, s: State, ev: Event, j: Jti)
    requires WellFormed(s) && Enabled(s, ev)
    ensures Wins(s.db, j) <= Wins(Next(cfg, s, ev).db, j)
  {
    WinsChange(cfg, s, ev, j);
  }

  lemma SignedByPreserved(cfg: Config, s: State, ev: Event, m: Minted)
    requires WellFormed(s) && Enabled(s, ev) && SignedBy(s, m)
    ensures SignedBy(Next(cfg, s, ev), m)
  {
    if m.path != [] {
      NoSecondSignature(cfg, s, ev, m.signer, m.token.kind);
      WinsGrow(cfg, s, ev, m.path[|m.path| - 1]);
    }
  }

  lemma SignerPreserved(cfg: Config, s: State, ev: Event, j: Jti)
    requires DbInv(s.db) && ReqInv(s) && WellFormed(s) && Enabled(s, ev) && j in Next(cfg, s, ev).db.minted
    requires j in s.db.minted ==> SignerOk(s, j)
    ensures SignerOk(Next(cfg, s, ev), j)
  {
    if j in s.db.minted {
      MintedStays(cfg, s, ev, j);
      SignedByPreserved(cfg, s, ev, s.db.minted[j]);
    } else {
      NewlySignedOk(cfg, s, ev, j);
    }
  }

  lemma SignedOncePreserved(cfg: Config, s: State, ev: Event, x: Jti, y: Jti)
    requires Inv(s) && WellFormed(s) && Enabled(s, ev) && Twins(Next(cfg, s, ev).db, x, y)
    ensures x == y
  {
    if x in s.db.minted {
      MintedStays(cfg, s, ev, x);
      assert SignerOk(s, x);
    } else {
      NewlySigned(cfg, s, ev, x);
    }
    if y in s.db.minted {
      MintedStays(cfg, s, ev, y);
      assert SignerOk(s, y);
    } else {
      NewlySigned(cfg, s, ev, y);
    }
    assert x in s.db.minted && y in s.db.minted ==> Twins(s.db, x, y);
  }

  lemma SignInvPreserved(cfg: Config, s: State, ev: Event)
    requires Inv(s) && WellFormed(s) && Enabled(s, ev)
    ensures SignInv(Next(cfg, s, ev))
  {
    forall j <- Next(cfg, s, ev).db.minted
      ensures SignerOk(Next(cfg, s, ev), j)
    {
      SignerPreserved(cfg, s, ev, j);
    }
    forall x, y | Twins(Next(cfg, s, ev).db, x, y)
      ensures x == y
    {
      SignedOncePreserved(cfg, s, ev, x, y);
    }
  }

  lemma InvPreserved(cfg: Config, s: State, ev: Event)
    requires Inv(s) && WellFormed(s) && Enabled(s, ev)
    ensures Inv(Next(cfg, s, ev)) && WellFormed(Next(cfg, s, ev))
  {
    EveryEffectIsOk(cfg, s, ev);
    ApplyKeepsDbInv(s.db, EffectOf(cfg, s, ev));
    ReqInvPreserved(cfg, s, ev);
    SignInvPreserved(cfg, s, ev);
    InvWellFormed(Next(cfg, s, ev));
  }
}
