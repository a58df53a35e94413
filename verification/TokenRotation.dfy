/**
 The refresh-token protocol as a state machine: one event per database
 statement (or per signature), and a program counter per request in flight, so
 that every interleaving of logins, refreshes, revokes, verifications, sweeps
 and failures is a run. The tables hold only what the source stores; `minted`,
 `wins` and `swept` are history, never read by a guard except to keep jtis fresh.
 */
module TokenRotation {
  import opened Options
  import opened TokenStore

  type ReqId = nat

  /** A signed token, the refresh tokens rotated to obtain it (oldest first), and its signer. */
  datatype Minted = Minted(token: Payload, path: seq<Jti>, signer: ReqId)

  datatype Db = Db(
    now: nat,
    versions: Versions,
    claims: Claims,
    minted: map<Jti, Minted>,        // history: every token ever signed
    wins: map<Jti, seq<ReqId>>,      // history: the requests whose claim of a jti was inserted
    swept: set<Jti>)                 // history: jtis whose claim row was deleted

  datatype Purpose = Rotate | Verify(expected: Option<TokenKind>)

  datatype Pc =
    | AtAccountVersion
    | AtChainVersion
    | AtClaim
    | AtSignAccess(row: ClaimRow)
    | AtSignRefresh(row: ClaimRow, access: Jti)
    | AtDecodeChild(access: Jti, child: Jti)
    | AtRecheckAccount(access: Jti, child: Jti)
    | AtRecheckChain(access: Jti, child: Jti)
    | AtReplayCheck
    | AtChainRevoke
    | Accepted
    | Rotated(access: Jti, child: Jti)
    | Rejected

  datatype Request =
    | Issuing(kind: TokenKind, email: string, chain: string, accountVer: nat, chainVer: nat)
    | Presented(token: Payload, purpose: Purpose, ip: Option<string>, decodedAt: nat, pc: Pc)
    | Finished

  datatype State = State(db: Db, reqs: map<ReqId, Request>)

  datatype Event =
    | Tick(to: nat)
    | RevokeAccount(email: string)
    | RevokeChain(email: string, chain: string)
    | Sweep(batch: set<Jti>)
    | IssueRead(r: ReqId, kind: TokenKind, email: string, chain: string)
    | IssueSign(r: ReqId, newJti: Jti)
    | Present(r: ReqId, jti: Jti, purpose: Purpose, ip: Option<string>)
    | Advance(r: ReqId, newJti: Jti, ack: bool)
    | Fail(r: ReqId)

  /** What one statement does to the tables. */
  datatype Effect =
    | Nothing
    | Clock(to: nat)
    | Bump(key: string)
    | Delete(batch: set<Jti>)
    | Sign(m: Minted)
    | Insert(r: ReqId, token: Payload, row: ClaimRow)

  const SWEEP_BATCH := 5000

  function Wins(db: Db, jti: Jti): seq<ReqId> {
    if jti in db.wins then db.wins[jti] else []
  }

  ghost predicate Initial(s: State) {
    s.db.minted == map[] && s.db.claims == map[] && s.db.wins == map[] && s.db.swept == {} && s.reqs == map[]
  }

  predicate IsDone(q: Request) {
    q.Finished? || (q.Presented? && (q.pc.Accepted? || q.pc.Rotated? || q.pc.Rejected?))
  }

  predicate Enabled(s: State, ev: Event) {
    match ev
    case Tick(to) => s.db.now <= to
    case RevokeAccount(email) => true
    case RevokeChain(email, chain) => IsChainId(chain)
    case Sweep(batch) =>
      && batch <= s.db.claims.Keys && |batch| <= SWEEP_BATCH
      && forall j <- batch :: s.db.claims[j].expiresAt < s.db.now
    case IssueRead(r, kind, email, chain) => r !in s.reqs && email != "" && IsChainId(chain)
    case IssueSign(r, newJti) => r in s.reqs && s.reqs[r].Issuing? && newJti !in s.db.minted
    case Present(r, jti, purpose, ip) => r !in s.reqs && jti in s.db.minted
    case Advance(r, newJti, ack) => r in s.reqs && s.reqs[r].Presented? && !IsDone(s.reqs[r]) && newJti !in s.db.minted
    case Fail(r) => r in s.reqs && !IsDone(s.reqs[r])
  }

  /** Decoding: the signature holds because the token was minted; what is left is expiry and, for a
      refresh, the type. */
  function FirstPc(t: Payload, purpose: Purpose, now: nat): Pc {
    if now < t.exp && (purpose == Rotate ==> t.kind == Refresh) then AtAccountVersion else Rejected
  }

  function Child(cfg: Config, parent: Payload, kind: TokenKind, row: ClaimRow, jti: Jti): Payload {
    Payload(parent.email, kind, jti, parent.chain, row.accountVer, row.chainVer, row.consumedAt + Ttl(cfg, kind))
  }

  function Apply(db: Db, e: Effect): Db {
    match e
    case Nothing => db
    case Clock(to) => db.(now := to)
    case Bump(key) => db.(versions := Bumped(db.versions, key))
    case Delete(batch) => db.(claims := db.claims - batch, swept := db.swept + batch)
    case Sign(m) => db.(minted := db.minted[m.token.jti := m])
    case Insert(r, t, row) => db.(claims := db.claims[t.jti := row], wins := db.wins[t.jti := Wins(db, t.jti) + [r]])
  }

  /** The row of INSERT ... ON CONFLICT DO NOTHING. */
  function NewRow(db: Db, t: Payload, ip: Option<string>): ClaimRow {
    ClaimRow(db.now, t.exp, ip, t.accountVer, t.chainVer)
  }

  function ChildMinted(cfg: Config, db: Db, r: ReqId, parent: Payload, kind: TokenKind, row: ClaimRow, jti: Jti): Minted
    requires parent.jti in db.minted
  {
    Minted(Child(cfg, parent, kind, row, jti), db.minted[parent.jti].path + [parent.jti], r)
  }

  /** The request's next step has the tokens it looks up. */
  predicate Ready(db: Db, q: Request) {
    q.Presented? ==>
      && q.token.jti in db.minted
      && (q.pc.AtDecodeChild? || q.pc.AtRecheckAccount? || q.pc.AtRecheckChain? ==> q.pc.child in db.minted)
  }

  /** One step of request `r`: the effect on the tables and the program counter afterwards. `ack` is
      false when the claim took effect but its answer was lost. */
  function Stepped(cfg: Config, db: Db, r: ReqId, q: Request, newJti: Jti, ack: bool): (Effect, Pc)
    requires q.Presented? && !IsDone(q) && Ready(db, q)
  {
    var t := q.token;
    match q.pc
    case AtAccountVersion => (Nothing, if AccountMatches(db.versions, t) then AtChainVersion else Rejected)
    case AtChainVersion =>
      (Nothing,
       if !ChainMatches(db.versions, t) then Rejected
       else match q.purpose
         case Rotate => AtClaim
         case Verify(expected) => if expected == None || expected == Some(t.kind) then Accepted else Rejected)
    case AtClaim =>
      if t.jti in db.claims then (Nothing, if ack then AtReplayCheck else Rejected)
      else (Insert(r, t, NewRow(db, t, q.ip)), if ack then AtSignAccess(NewRow(db, t, q.ip)) else Rejected)
    case AtSignAccess(row) =>
      (Sign(ChildMinted(cfg, db, r, t, Access, row, newJti)), AtSignRefresh(row, newJti))
    case AtSignRefresh(row, access) =>
      (Sign(ChildMinted(cfg, db, r, t, Refresh, row, newJti)), AtDecodeChild(access, newJti))
    case AtDecodeChild(access, child) =>
      (Nothing, if db.now < db.minted[child].token.exp then AtRecheckAccount(access, child) else Rejected)
    case AtRecheckAccount(access, child) =>
      (Nothing, if AccountMatches(db.versions, db.minted[child].token) then AtRecheckChain(access, child) else Rejected)
    case AtRecheckChain(access, child) =>
      (Nothing, if ChainMatches(db.versions, db.minted[child].token) then Rotated(access, child) else Rejected)
    case AtReplayCheck =>
      (Nothing, if IsBenign(db.claims, t.jti, q.ip, db.now, cfg.grace) then Rejected else AtChainRevoke)
    case AtChainRevoke => (Bump(ChainKey(t.email, t.chain)), Rejected)
  }

  ghost predicate WellFormed(s: State) {
    forall r <- s.reqs :: Ready(s.db, s.reqs[r])
  }

  function EffectOf(cfg: Config, s: State, ev: Event): Effect
    requires WellFormed(s) && Enabled(s, ev)
  {
    match ev
    case Tick(to) => Clock(to)
    case RevokeAccount(email) => Bump(AccountKey(email))
    case RevokeChain(email, chain) => Bump(ChainKey(email, chain))
    case Sweep(batch) => Delete(batch)
    case IssueSign(r, newJti) =>
      var q := s.reqs[r];
      Sign(Minted(Payload(q.email, q.kind, newJti, q.chain, q.accountVer, q.chainVer, s.db.now + Ttl(cfg, q.kind)),
          [], r))
    case Advance(r, newJti, ack) => Stepped(cfg, s.db, r, s.reqs[r], newJti, ack).0
    case IssueRead(_, _, _, _) => Nothing
    case Present(_, _, _, _) => Nothing
    case Fail(_) => Nothing
  }

  /** The request an event moves, if any. */
  function Mover(ev: Event): Option<ReqId> {
    if ev.Tick? || ev.RevokeAccount? || ev.RevokeChain? || ev.Sweep? then None else Some(ev.r)
  }

  function Moved(cfg: Config, s: State, ev: Event): Request
    requires WellFormed(s) && Enabled(s, ev) && Mover(ev).Some?
  {
    match ev
    case IssueRead(r, kind, email, chain) =>
      Issuing(kind, email, chain, VersionOf(s.db.versions, AccountKey(email)),
              VersionOf(s.db.versions, ChainKey(email, chain)))
    case IssueSign(r, newJti) => Finished
    case Present(r, jti, purpose, ip) =>
      var t := s.db.minted[jti].token;
      Presented(t, purpose, ip, s.db.now, FirstPc(t, purpose, s.db.now))
    case Advance(r, newJti, ack) => s.reqs[r].(pc := Stepped(cfg, s.db, r, s.reqs[r], newJti, ack).1)
    case Fail(r) => if s.reqs[r].Issuing? then Finished else s.reqs[r].(pc := Rejected)
  }

  function Next(cfg: Config, s: State, ev: Event): State
    requires WellFormed(s) && Enabled(s, ev)
  {
    State(Apply(s.db, EffectOf(cfg, s, ev)),
          if Mover(ev).Some? then s.reqs[Mover(ev).value := Moved(cfg, s, ev)] else s.reqs)
  }
}
