/**
 Single use of refresh tokens: when a jti yields one child pair, and what a
 replayed jti does.
 */
module TokenSingleUse {
  import opened Options
  import opened TokenStore
  import opened TokenRotation
  import opened TokenInvariants
  import opened TokenTheorems

  /** The claim of a jti whose earlier claim row the sweep has already deleted. */
  predicate LateClaim(s: State, ev: Event, jti: Jti) {
    && ev.Advance? && ev.r in s.reqs && s.reqs[ev.r].Presented? && s.reqs[ev.r].pc.AtClaim?
    && s.reqs[ev.r].token.jti == jti && jti !in s.db.claims && jti in s.db.swept
  }

  /** A jti has a winner exactly when its claim row exists or has been swept. */
  lemma WonIffClaimed(s: State, jti: Jti)
    requires DbInv(s.db) && ReqInv(s)
    ensures Wins(s.db, jti) != [] <==> jti in s.db.claims || jti in s.db.swept
  {
    if Wins(s.db, jti) != [] {
      assert Wins(s.db, jti)[0] in Wins(s.db, jti);
    }
    assert jti in s.db.swept ==> SweptOk(s.db, jti);
    assert jti in s.db.claims ==> ClaimOk(s.db, jti);
  }

  lemma WinsStep(cfg: Config, s: State, ev: Event, jti: Jti, s': State)
    requires DbInv(s.db) && ReqInv(s) && Leads(cfg, s, ev, s')
    ensures |Wins(s.db, jti)| <= |Wins(s'.db, jti)|
    ensures LateClaim(s, ev, jti) ==> |Wins(s'.db, jti)| >= 2
    ensures |Wins(s.db, jti)| <= 1 && !LateClaim(s, ev, jti) ==> |Wins(s'.db, jti)| <= 1
  {
    WonIffClaimed(s, jti);
    WinsChange(cfg, s, ev, jti);
    if LateClaim(s, ev, jti) {
      assert Ready(s.db, s.reqs[ev.r]);
    }
  }

  ghost predicate NoLateClaim(ss: seq<State>, evs: seq<Event>, n: nat, jti: Jti)
    requires n <= |evs| && n <= |ss|
  {
    forall k :: 0 <= k < n ==> !LateClaim(ss[k], evs[k], jti)
  }

  lemma InvParts(s: State)
    requires Inv(s)
    ensures DbInv(s.db) && ReqInv(s)
  {
  }

  /** A jti is won at most once in a run if and only if no claim of it comes after the sweep of its
      own earlier claim. */
  lemma {:induction false} AtMostOneWinner(cfg: Config, ss: seq<State>, evs: seq<Event>, n: nat, jti: Jti)
    requires IsRun(cfg, ss, evs) && n <= |evs|
    ensures |Wins(ss[n].db, jti)| <= 1 <==> NoLateClaim(ss, evs, n, jti)
  {
    hide Inv, Next, Enabled, LateClaim, WellFormed;
    if n > 0 {
      AtMostOneWinner(cfg, ss, evs, n - 1, jti);
      var s, ev := ss[n - 1], evs[n - 1];
      assert |Wins(s.db, jti)| <= |Wins(ss[n].db, jti)|
          && (LateClaim(s, ev, jti) ==> |Wins(ss[n].db, jti)| >= 2)
          && (|Wins(s.db, jti)| <= 1 && !LateClaim(s, ev, jti) ==> |Wins(ss[n].db, jti)| <= 1) by {
        RunInv(cfg, ss, evs, n - 1);
        assert StepAt(cfg, ss, evs, n - 1);
        InvParts(s);
        WinsStep(cfg, s, ev, jti, ss[n]);
      }
    }
  }

  /** Such a claim is made after the token's own expiry by a request that decoded it before: the
      request's decode-to-claim span straddles both the expiry and the sweep. A claim made in time is never late. */
  lemma LateClaimStraddles(cfg: Config, ss: seq<State>, evs: seq<Event>, n: nat, jti: Jti)
    requires IsRun(cfg, ss, evs) && n < |evs| && LateClaim(ss[n], evs[n], jti)
    ensures ss[n].reqs[evs[n].r].decodedAt < ss[n].reqs[evs[n].r].token.exp < ss[n].db.now
  {
    RunInv(cfg, ss, evs, n);
    assert RequestOk(ss[n].db, evs[n].r, ss[n].reqs[evs[n].r]);
    assert SweptOk(ss[n].db, jti);
  }

  predicate IsChildOf(db: Db, child: Jti, parent: Jti) {
    && child in db.minted && db.minted[child].path != []
    && db.minted[child].path[|db.minted[child].path| - 1] == parent
  }

  /** One winner, one child of each kind, however many requests presented the jti. */
  lemma OneWinnerOneChildPair(s: State, parent: Jti, x: Jti, y: Jti)
    requires SignInv(s) && |Wins(s.db, parent)| <= 1
    requires IsChildOf(s.db, x, parent) && IsChildOf(s.db, y, parent)
    requires s.db.minted[x].token.kind == s.db.minted[y].token.kind
    ensures x == y
  {
    assert SignerOk(s, x) && SignerOk(s, y);
    assert Twins(s.db, x, y);
  }

  lemma EachJtiHasOneChildPair(cfg: Config, ss: seq<State>, evs: seq<Event>, n: nat, parent: Jti, x: Jti, y: Jti)
    requires IsRun(cfg, ss, evs) && n <= |evs|
    requires NoLateClaim(ss, evs, n, parent)
    requires IsChildOf(ss[n].db, x, parent) && IsChildOf(ss[n].db, y, parent)
    requires ss[n].db.minted[x].token.kind == ss[n].db.minted[y].token.kind
    ensures x == y
  {
    RunInv(cfg, ss, evs, n);
    AtMostOneWinner(cfg, ss, evs, n, parent);
    OneWinnerOneChildPair(ss[n], parent, x, y);
  }

  // ---- the tokens of one login ------------------------------------------------------------

  /** A refresh token preceded by the refresh tokens rotated to obtain it. */
  function Lineage(db: Db, x: Jti): seq<Jti>
    requires x in db.minted
  {
    db.minted[x].path + [x]
  }

  lemma LineagePrefix(db: Db, x: Jti, k: nat)
    requires DbInv(db) && x in db.minted && k < |Lineage(db, x)|
    ensures Lineage(db, x)[k] in db.minted
    ensures Lineage(db, Lineage(db, x)[k]) == Lineage(db, x)[..k + 1]
    ensures k < |Lineage(db, x)| - 1 ==>
            db.minted[Lineage(db, x)[k]].token.kind == Refresh && Wins(db, Lineage(db, x)[k]) != []
  {
    assert MintedOk(db, x);
    if k < |db.minted[x].path| {
      assert AncestorOk(db, db.minted[x], k);
      assert Lineage(db, x)[..k + 1] == db.minted[x].path[..k] + [db.minted[x].path[k]];
    } else {
      assert Lineage(db, x)[..k + 1] == Lineage(db, x);
    }
  }

  predicate IsRefreshChildOf(db: Db, child: Jti, parent: Jti) {
    IsChildOf(db, child, parent) && db.minted[child].token.kind == Refresh
  }

  /** Each token of the path is a refresh child of the one before it. */
  ghost predicate Linked(db: Db, p: seq<Jti>) {
    forall k :: 0 < k < |p| ==> IsRefreshChildOf(db, p[k], p[k - 1])
  }

  lemma LineageLinked(db: Db, x: Jti)
    requires DbInv(db) && x in db.minted && db.minted[x].token.kind == Refresh
    ensures Linked(db, Lineage(db, x))
  {
    var p := Lineage(db, x);
    forall k | 0 < k < |p|
      ensures IsRefreshChildOf(db, p[k], p[k - 1])
    {
      LineagePrefix(db, x, k);
      assert Lineage(db, p[k])[k - 1] == p[..k + 1][k - 1] == p[k - 1];
      assert |Lineage(db, p[k])| == k + 1;
    }
  }

  ghost predicate OnlyChildren(db: Db) {
    forall parent, x, y :: IsRefreshChildOf(db, x, parent) && IsRefreshChildOf(db, y, parent) ==> x == y
  }

  lemma {:induction false} SamePrefix(db: Db, px: seq<Jti>, py: seq<Jti>, k: nat)
    requires OnlyChildren(db) && Linked(db, px) && Linked(db, py)
    requires k < |px| && k < |py| && px[0] == py[0]
    ensures px[..k + 1] == py[..k + 1]
  {
    if k > 0 {
      SamePrefix(db, px, py, k - 1);
      assert px[k - 1] == px[..k][k - 1] && py[k - 1] == py[..k][k - 1];
      assert IsRefreshChildOf(db, px[k], px[k - 1]) && IsRefreshChildOf(db, py[k], py[k - 1]);
      assert px[..k + 1] == px[..k] + [px[k]] && py[..k + 1] == py[..k] + [py[k]];
    }
  }

  /** The refresh tokens of one login form a single path, and all but the last of them are used up. */
  lemma OneLoginOnePath(cfg: Config, ss: seq<State>, evs: seq<Event>, n: nat, x: Jti, y: Jti)
    requires IsRun(cfg, ss, evs) && n <= |evs|
    requires forall j: Jti :: NoLateClaim(ss, evs, n, j)
    requires x in ss[n].db.minted && y in ss[n].db.minted
    requires ss[n].db.minted[x].token.kind == ss[n].db.minted[y].token.kind == Refresh
    requires Lineage(ss[n].db, x)[0] == Lineage(ss[n].db, y)[0]
    ensures Lineage(ss[n].db, x) <= Lineage(ss[n].db, y) || Lineage(ss[n].db, y) <= Lineage(ss[n].db, x)
    ensures Wins(ss[n].db, x) == [] && Wins(ss[n].db, y) == [] ==> x == y
  {
    var db := ss[n].db;
    RunInv(cfg, ss, evs, n);
    forall parent, a, b | IsRefreshChildOf(db, a, parent) && IsRefreshChildOf(db, b, parent)
      ensures a == b
    {
      AtMostOneWinner(cfg, ss, evs, n, parent);
      OneWinnerOneChildPair(ss[n], parent, a, b);
    }
    LineageLinked(db, x);
    LineageLinked(db, y);
    ComparablePaths(db, x, y);
  }

  lemma ComparablePaths(db: Db, x: Jti, y: Jti)
    requires DbInv(db) && OnlyChildren(db) && x in db.minted && y in db.minted
    requires Linked(db, Lineage(db, x)) && Linked(db, Lineage(db, y)) && Lineage(db, x)[0] == Lineage(db, y)[0]
    ensures Lineage(db, x) <= Lineage(db, y) || Lineage(db, y) <= Lineage(db, x)
    ensures Wins(db, x) == [] && Wins(db, y) == [] ==> x == y
  {
    var px, py := Lineage(db, x), Lineage(db, y);
    var k := if |px| <= |py| then |px| - 1 else |py| - 1;
    SamePrefix(db, px, py, k);
    LineagePrefix(db, x, k);
    LineagePrefix(db, y, k);
    assert px[..|px|] == px && py[..|py|] == py;
    assert px[k] == px[..k + 1][k] == py[..k + 1][k];
  }

  // ---- replay -----------------------------------------------------------------------------

  predicate SameChain(a: Payload, b: Payload) {
    a.email == b.email && a.chain == b.chain
  }

  lemma ChainBumpIsScoped(v: Versions, t: Payload, u: Payload)
    requires IsChainId(t.chain) && IsChainId(u.chain)
    requires !SameChain(t, u)
    ensures IsCurrent(Bumped(v, ChainKey(t.email, t.chain)), u) == IsCurrent(v, u)
  {
    ChainKeyInjective(t.email, t.chain, u.email, u.chain);
    AccountAndChainKeysDiffer(u.email, t.email, t.chain);
  }

  /** Reuse revokes exactly the chain of the replayed token: everything signed for that chain so far
      is stale for the rest of the run, and the same step changes no verdict on any other chain. */
  lemma ReplayRevokesExactlyTheChain(cfg: Config, ss: seq<State>, evs: seq<Event>, i: nat, n: nat, x: Jti)
    requires IsRun(cfg, ss, evs) && i < n <= |evs| && x in ss[i].db.minted
    requires evs[i].Advance? && evs[i].r in ss[i].reqs && ss[i].reqs[evs[i].r].Presented?
    requires ss[i].reqs[evs[i].r].pc.AtChainRevoke?
    ensures SameChain(ss[i].reqs[evs[i].r].token, ss[i].db.minted[x].token) ==>
              IsStale(ss[n].db.versions, ss[i].db.minted[x].token)
    ensures !SameChain(ss[i].reqs[evs[i].r].token, ss[i].db.minted[x].token) ==>
              IsCurrent(ss[i + 1].db.versions, ss[i].db.minted[x].token) ==
                  IsCurrent(ss[i].db.versions, ss[i].db.minted[x].token)
  {
    RunInv(cfg, ss, evs, i);
    assert StepAt(cfg, ss, evs, i);
    var t, u := ss[i].reqs[evs[i].r].token, ss[i].db.minted[x].token;
    assert RequestOk(ss[i].db, evs[i].r, ss[i].reqs[evs[i].r]) && MintedOk(ss[i].db, t.jti) && MintedOk(ss[i].db, x);
    if SameChain(t, u) {
      RunGrows(cfg, ss, evs, i + 1, n);
      StaleStays(ss[i + 1].db.versions, ss[n].db.versions, u);
    } else {
      ChainBumpIsScoped(ss[i].db.versions, t, u);
    }
  }

  /** `r` never fails between two steps, and whenever it looks the replay is not benign. */
  ghost predicate Unforgiven(cfg: Config, ss: seq<State>, evs: seq<Event>, i: nat, n: nat, r: ReqId)
    requires i <= n <= |evs| && |ss| == |evs| + 1
  {
    forall k :: i <= k < n ==> evs[k] != Fail(r) && !LooksAway(cfg, ss[k], evs[k], r)
  }

  /** A replay check of `r` that finds the replay benign. */
  predicate LooksAway(cfg: Config, s: State, ev: Event, r: ReqId) {
    && ev.Advance? && ev.r == r && r in s.reqs && s.reqs[r].Presented? && s.reqs[r].pc.AtReplayCheck?
    && IsBenign(s.db.claims, s.reqs[r].token.jti, s.reqs[r].ip, s.db.now, cfg.grace)
  }

  /** Until it revokes, such a replay is at its check or at its revocation. */
  lemma ReplayStep(cfg: Config, s: State, ev: Event, r: ReqId, t: Payload)
    requires WellFormed(s) && Enabled(s, ev) && ev != Fail(r) && !LooksAway(cfg, s, ev, r)
    requires At(s, r, t, AtReplayCheck) || At(s, r, t, AtChainRevoke)
    ensures
      || At(Next(cfg, s, ev), r, t, AtReplayCheck) || At(Next(cfg, s, ev), r, t, AtChainRevoke)
      || (ev.Advance? && ev.r == r && At(s, r, t, AtChainRevoke))
  {
    assert Ready(s.db, s.reqs[r]);
    hide Apply;
  }

  lemma {:induction false} ReplayReachesRevocation(cfg: Config, ss: seq<State>, evs: seq<Event>, i: nat, n: nat,
      r: ReqId, t: Payload)
    returns (k: nat)
    requires IsRun(cfg, ss, evs) && i <= n <= |evs| && Unforgiven(cfg, ss, evs, i, n, r)
    requires At(ss[i], r, t, AtReplayCheck) || At(ss[i], r, t, AtChainRevoke)
    requires At(ss[n], r, t, Rejected)
    ensures i <= k < n && evs[k].Advance? && evs[k].r == r && At(ss[k], r, t, AtChainRevoke)
    decreases n - i
  {
    assert i < n && StepAt(cfg, ss, evs, i);
    ReplayStep(cfg, ss[i], evs[i], r, t);
    if evs[i].Advance? && evs[i].r == r && At(ss[i], r, t, AtChainRevoke) {
      k := i;
    } else {
      k := ReplayReachesRevocation(cfg, ss, evs, i + 1, n, r, t);
    }
  }

  /** The whole of a replay: a rotation that finds its jti claimed, is not let off when it checks and
      does not fail before it is over has revoked its chain. Every token of the chain signed until then
      is stale for the rest of the run, and the revocation changed the verdict on no other chain. */
  lemma ReplayEndsItsChain(cfg: Config, ss: seq<State>, evs: seq<Event>, i: nat, n: nat, r: ReqId, t: Payload)
    returns (k: nat)
    requires IsRun(cfg, ss, evs) && i < n <= |evs|
    requires At(ss[i], r, t, AtClaim) && t.jti in ss[i].db.claims && evs[i].Advance? && evs[i].r == r && evs[i].ack
    requires Unforgiven(cfg, ss, evs, i + 1, n, r) && At(ss[n], r, t, Rejected)
    ensures i < k < n
    ensures forall x <- ss[k].db.minted ::
              SameChain(t, ss[k].db.minted[x].token) ==> IsStale(ss[n].db.versions, ss[k].db.minted[x].token)
    ensures forall x <- ss[k].db.minted ::
              !SameChain(t, ss[k].db.minted[x].token) ==>
              IsCurrent(ss[k + 1].db.versions, ss[k].db.minted[x].token) ==
                  IsCurrent(ss[k].db.versions, ss[k].db.minted[x].token)
  {
    assert StepAt(cfg, ss, evs, i);
    ClaimedMeansReplay(cfg, ss[i], evs[i], r, t);
    k := ReplayReachesRevocation(cfg, ss, evs, i + 1, n, r, t);
    hide IsRun, IsStale, IsCurrent, SameChain;
    forall x <- ss[k].db.minted
      ensures SameChain(t, ss[k].db.minted[x].token) ==> IsStale(ss[n].db.versions, ss[k].db.minted[x].token)
      ensures !SameChain(t, ss[k].db.minted[x].token) ==>
              IsCurrent(ss[k + 1].db.versions, ss[k].db.minted[x].token) ==
                  IsCurrent(ss[k].db.versions, ss[k].db.minted[x].token)
    {
      ReplayRevokesExactlyTheChain(cfg, ss, evs, k, n, x);
    }
  }

  lemma ClaimedMeansReplay(cfg: Config, s: State, ev: Event, r: ReqId, t: Payload)
    requires WellFormed(s) && Enabled(s, ev) && ev.Advance? && ev.r == r && ev.ack
    requires At(s, r, t, AtClaim) && t.jti in s.db.claims
    ensures At(Next(cfg, s, ev), r, t, AtReplayCheck)
  {
    assert Ready(s.db, s.reqs[r]);
  }

  predicate BeforeVerdict(pc: Pc) {
    BeforeClaim(pc) || pc.AtReplayCheck?
  }

  lemma {:induction false} BeforeTheVerdict(cfg: Config, ss: seq<State>, evs: seq<Event>, k: nat, n: nat, r: ReqId)
    requires IsRun(cfg, ss, evs) && k <= n <= |evs|
    requires r in ss[n].reqs && ss[n].reqs[r].Presented? && ss[n].reqs[r].pc.AtReplayCheck?
    ensures r in ss[k].reqs ==> ss[k].reqs[r].Presented? && BeforeVerdict(ss[k].reqs[r].pc)
    decreases n - k
  {
    if k < n {
      BeforeTheVerdict(cfg, ss, evs, k + 1, n, r);
      assert StepAt(cfg, ss, evs, k);
      assert r in ss[k].reqs ==> Ready(ss[k].db, ss[k].reqs[r]);
    }
  }

  /** Up to its verdict a replay has touched nothing; with a benign verdict it is over. So a same-IP
      replay inside the window changes no counter, no claim and signs no token. */
  lemma BenignReplayChangesNothing(cfg: Config, ss: seq<State>, evs: seq<Event>, k: nat, n: nat, r: ReqId)
    requires IsRun(cfg, ss, evs) && k <= n < |evs|
    requires r in ss[n].reqs && ss[n].reqs[r].Presented? && ss[n].reqs[r].pc.AtReplayCheck?
    requires Mover(evs[k]) == Some(r)
    ensures ss[k + 1].db == ss[k].db
    ensures
      (evs[n].Advance? && evs[n].r == r &&
          IsBenign(ss[n].db.claims, ss[n].reqs[r].token.jti, ss[n].reqs[r].ip, ss[n].db.now, cfg.grace))
      ==> At(ss[n + 1], r, ss[n].reqs[r].token, Rejected)
  {
    BeforeTheVerdict(cfg, ss, evs, k, n, r);
    if k < n {
      BeforeTheVerdict(cfg, ss, evs, k + 1, n, r);
    }
    assert StepAt(cfg, ss, evs, k) && StepAt(cfg, ss, evs, n);
    assert r in ss[k].reqs ==> Ready(ss[k].db, ss[k].reqs[r]);
  }
}
