/** From when a signed token's life counts: over every run, whoever signed it and however late. */
module TokenLifetimes {
  import opened TokenStore
  import opened TokenRotation
  import opened TokenTheorems
  import opened TokenReplay

  /** Step `k` signs `x`. */
  ghost predicate SignsAt(ss: seq<State>, evs: seq<Event>, k: nat, x: Jti)
    requires |ss| == |evs| + 1
  {
    k < |evs| && x !in ss[k].db.minted && x in ss[k + 1].db.minted
  }

  predicate HasRow(s: State, r: ReqId) {
    r in s.reqs && s.reqs[r].Presented? && (s.reqs[r].pc.AtSignAccess? || s.reqs[r].pc.AtSignRefresh?)
  }

  lemma RowStep(cfg: Config, s: State, ev: Event, r: ReqId)
    requires WellFormed(s) && Enabled(s, ev) && HasRow(Next(cfg, s, ev), r)
    ensures r in s.reqs && s.reqs[r].Presented? && s.reqs[r].token == Next(cfg, s, ev).reqs[r].token
    ensures
      || (HasRow(s, r) && s.reqs[r].pc.row == Next(cfg, s, ev).reqs[r].pc.row)
      || (&& ev.Advance? && ev.r == r && s.reqs[r].token.jti !in s.db.claims
          && s.reqs[r].token.jti in Next(cfg, s, ev).db.claims
          && Next(cfg, s, ev).reqs[r].pc.row.consumedAt == s.db.now)
  {
    if ev.Advance? {
      assert Ready(s.db, s.reqs[ev.r]);
    }
    hide WellFormed, IsBenign, AccountMatches, ChainMatches, Child;
  }

  /** A request about to sign holds the time of its own claim. */
  lemma {:induction false} RowIsFromClaim(cfg: Config, ss: seq<State>, evs: seq<Event>, n: nat, r: ReqId)
    returns (k: nat)
    requires IsRun(cfg, ss, evs) && n <= |evs| && HasRow(ss[n], r)
    ensures k < n && ClaimsAt(ss, evs, k, r, ss[n].reqs[r].token.jti)
    ensures ss[n].reqs[r].pc.row.consumedAt == ss[k].db.now
  {
    hide WellFormed, Enabled, Next, HasRow;
    HasNoRowAtFirst(ss[0], r);
    assert n > 0;
    assert StepAt(cfg, ss, evs, n - 1);
    RowStep(cfg, ss[n - 1], evs[n - 1], r);
    if HasRow(ss[n - 1], r) && RowOf(ss[n - 1], r) == RowOf(ss[n], r) {
      k := RowIsFromClaim(cfg, ss, evs, n - 1, r);
    } else {
      k := n - 1;
    }
  }

  function RowOf(s: State, r: ReqId): ClaimRow
    requires HasRow(s, r)
  {
    s.reqs[r].pc.row
  }

  lemma HasNoRowAtFirst(s: State, r: ReqId)
    requires Initial(s)
    ensures !HasRow(s, r)
  {
  }

  predicate LivesFrom(cfg: Config, t: Payload, start: nat) {
    t.exp == start + if t.kind.Access? then cfg.accessTtl else cfg.refreshTtl
  }

  lemma SignedByRotation(cfg: Config, s: State, ev: Event, x: Jti)
    requires WellFormed(s) && Enabled(s, ev) && ev.Advance? && x !in s.db.minted && x in Next(cfg, s, ev).db.minted
    ensures var m := Next(cfg, s, ev).db.minted[x];
      && m.signer == ev.r && HasRow(s, ev.r) && m.path != [] && m.path[|m.path| - 1] == s.reqs[ev.r].token.jti
      && LivesFrom(cfg, m.token, s.reqs[ev.r].pc.row.consumedAt)
  {
    assert Ready(s.db, s.reqs[ev.r]);
    hide WellFormed, IsBenign, AccountMatches, ChainMatches;
  }

  lemma SignedByLogin(cfg: Config, s: State, ev: Event, x: Jti)
    requires WellFormed(s) && Enabled(s, ev) && !ev.Advance? && x !in s.db.minted && x in Next(cfg, s, ev).db.minted
    ensures var m := Next(cfg, s, ev).db.minted[x];
      ev == IssueSign(m.signer, x) && m.path == [] && LivesFrom(cfg, m.token, s.db.now)
  {
    hide WellFormed, Stepped;
  }

  lemma {:induction false} SignedSometime(cfg: Config, ss: seq<State>, evs: seq<Event>, n: nat, x: Jti)
    returns (j: nat)
    requires IsRun(cfg, ss, evs) && n <= |evs| && x in ss[n].db.minted
    ensures j < n && SignsAt(ss, evs, j, x)
  {
    assert n > 0;
    if x in ss[n - 1].db.minted {
      j := SignedSometime(cfg, ss, evs, n - 1, x);
    } else {
      j := n - 1;
    }
  }

  /** Every token expires exactly its kind's lifetime after a known step: a login's token after its own
      signature, a rotated one after the claim of its parent, made by the request that signed it. */
  lemma LifetimeIsExact(cfg: Config, ss: seq<State>, evs: seq<Event>, n: nat, x: Jti) returns (k: nat)
    requires IsRun(cfg, ss, evs) && n <= |evs| && x in ss[n].db.minted
    ensures var m := ss[n].db.minted[x];
      && k < n
      && LivesFrom(cfg, m.token, ss[k].db.now)
      && (if m.path == [] then SignsAt(ss, evs, k, x) && evs[k] == IssueSign(m.signer, x)
          else ClaimsAt(ss, evs, k, m.signer, m.path[|m.path| - 1]))
  {
    hide WellFormed, Enabled, Next, HasRow;
    var j := SignedSometime(cfg, ss, evs, n, x);
    assert StepAt(cfg, ss, evs, j);
    RunGrows(cfg, ss, evs, j + 1, n);
    if evs[j].Advance? {
      SignedByRotation(cfg, ss[j], evs[j], x);
      k := RowIsFromClaim(cfg, ss, evs, j, evs[j].r);
    } else {
      SignedByLogin(cfg, ss[j], evs[j], x);
      k := j;
    }
  }
}
