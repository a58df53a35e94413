/**
 The service methods as they run undisturbed, over the two tables as fields.
 Each promises the whole new state in the terms TokenRotation's events use.
 */
module RefreshTokenService {
  import opened Options
  import opened TokenStore
  import TokenRotation

  /** Claims that the sweep may delete. */
  function Expired(claims: Claims, now: nat): set<Jti> {
    set j | j in claims && claims[j].expiresAt < now
  }

  predicate IsEarliest(claims: Claims, expired: set<Jti>, batch: set<Jti>)
    requires expired <= claims.Keys
  {
    && batch <= expired
    && forall a <- batch, b <- expired - batch :: claims[a].expiresAt <= claims[b].expiresAt
  }

  /** What was deleted had expired no later than what was kept. */
  predicate OldestGone(before: Claims, after: Claims) {
    forall j <- before, k <- after :: j in after || before[j].expiresAt <= after[k].expiresAt
  }

  lemma EarliestGone(claims: Claims, now: nat, batch: set<Jti>)
    requires Expired(claims, now) <= claims.Keys && IsEarliest(claims, Expired(claims, now), batch)
    ensures OldestGone(claims, claims - batch)
  {
    var kept := claims - batch;
    forall j <- claims, k <- kept
      ensures j in kept || claims[j].expiresAt <= kept[k].expiresAt
    {
      assert k !in batch && k in claims;
      if j in batch && k in Expired(claims, now) {
        assert k in Expired(claims, now) - batch;
      }
    }
  }

  lemma {:induction false} SomeEarliest(claims: Claims, expired: set<Jti>) returns (first: Jti)
    requires expired <= claims.Keys && expired != {}
    ensures first in expired && forall b :: b in expired ==> claims[first].expiresAt <= claims[b].expiresAt
    decreases expired
  {
    var x :| x in expired;
    if expired == {x} {
      first := x;
    } else {
      var rest := SomeEarliest(claims, expired - {x});
      first := if claims[x].expiresAt <= claims[rest].expiresAt then x else rest;
      assert forall b :: b in expired ==> b == x || b in expired - {x};
    }
  }

  /** ORDER BY expires_at LIMIT n always has an answer. */
  lemma {:induction false} EarliestBatch(claims: Claims, expired: set<Jti>, n: nat) returns (batch: set<Jti>)
    requires expired <= claims.Keys && n <= |expired|
    ensures IsEarliest(claims, expired, batch) && |batch| == n
  {
    if n == 0 {
      batch := {};
    } else {
      var first := SomeEarliest(claims, expired);
      var rest := EarliestBatch(claims, expired - {first}, n - 1);
      batch := rest + {first};
    }
  }

  /** How the database answers a bump, and whether the cache takes the new version. A commit whose
      answer is lost counts, though its caller learns of a failure. */
  datatype Answer = Confirms(cached: bool) | NothingDone | Unanswered

  class Service {
    const cfg: Config
    var now: nat
    var versions: Versions
    var cache: map<string, nat>
    var claims: Claims

    constructor (cfg: Config)
      ensures this.cfg == cfg && versions == map[] && claims == map[] && cache == map[]
    {
      this.cfg := cfg;
      now, versions, cache, claims := 0, map[], map[], map[];
    }

    method GetVersion(key: string) returns (version: nat)
      ensures version == VersionOf(versions, key)
    {
      if key in versions {
        version := versions[key];
      } else {
        version := 0;
      }
    }

    /** The caller is told of a bump exactly when the database confirms it; a cache that fails keeps
        its old entry. */
    method BumpVersion(key: string, answer: Answer) returns (ok: bool)
      modifies this`versions, this`cache
      ensures ok <==> answer.Confirms?
      ensures versions == if answer.NothingDone? then old(versions) else Bumped(old(versions), key)
      ensures cache == if answer == Confirms(true) then old(cache)[key := VersionOf(versions, key)] else old(cache)
    {
      if answer.NothingDone? {
        return false;
      }
      var version := GetVersion(key);
      versions := versions[key := version + 1];
      if answer.Unanswered? {
        return false;
      }
      if answer.cached {
        cache := cache[key := version + 1];
      }
      return true;
    }

    method IsCurrentVersion(t: Payload) returns (current: bool)
      ensures current == IsCurrent(versions, t)
    {
      if t.email == "" {
        return true;
      }
      var account := GetVersion(AccountKey(t.email));
      if t.accountVer != account {
        return false;
      }
      if t.chain == "" {
        return true;
      }
      var chain := GetVersion(ChainKey(t.email, t.chain));
      return t.chainVer == chain;
    }

    method VerifyToken(t: Payload, expected: Option<TokenKind>) returns (accepted: bool)
      ensures accepted <==> now < t.exp && IsCurrent(versions, t) && (expected == None || expected == Some(t.kind))
    {
      if t.exp <= now {
        return false;
      }
      var current := IsCurrentVersion(t);
      if !current {
        return false;
      }
      return expected == None || expected == Some(t.kind);
    }

    /** Exactly one caller per row gets `claimed`; every caller gets the row that is stored. */
    method ClaimJtiForRotation(t: Payload, ip: Option<string>) returns (claimed: bool, row: ClaimRow)
      modifies this`claims
      ensures claimed <==> t.jti !in old(claims)
      ensures t.jti in claims && row == claims[t.jti]
      ensures claimed ==>
              row == ClaimRow(now, t.exp, ip, t.accountVer, t.chainVer) && claims == old(claims)[t.jti := row]
      ensures !claimed ==> claims == old(claims)
    {
      claimed := t.jti !in claims;
      if claimed {
        claims := claims[t.jti := ClaimRow(now, t.exp, ip, t.accountVer, t.chainVer)];
      }
      row := claims[t.jti];
    }

    method IsBenignDuplicateRotation(jti: Jti, ip: Option<string>) returns (benign: bool)
      ensures benign == IsBenign(claims, jti, ip, now, cfg.grace)
    {
      if cfg.grace <= 0 {
        return false;
      }
      if jti !in claims {
        return false;
      }
      var age := now - claims[jti].consumedAt;
      return 0 <= age <= cfg.grace && claims[jti].ip == ip;
    }

    lemma AccountBump(email: string)
      ensures forall t: Payload ::
                (email != "" && t.email == email && t.accountVer <= VersionOf(versions, AccountKey(email)))
                ==> !IsCurrent(Bumped(versions, AccountKey(email)), t)
      ensures forall t: Payload :: t.email != email ==>
              IsCurrent(Bumped(versions, AccountKey(email)), t) == IsCurrent(versions, t)
    {
      forall t: Payload | t.email != email
        ensures IsCurrent(Bumped(versions, AccountKey(email)), t) == IsCurrent(versions, t)
      {
        AccountKeyInjective(t.email, email);
        AccountAndChainKeysDiffer(email, t.email, t.chain);
      }
    }

    /** One bump ends every token of the account signed so far and no token of any other account. The
        report is the number of active sessions, or None when the bump is not confirmed; but it is 0,
        with nothing ended, when counting the sessions raises (`active` is None). */
    method RevokeAllTokensForUser(email: string, active: Option<nat>, answer: Answer)
      returns (revoked: Option<nat>)
      modifies this`versions, this`cache
      ensures revoked == if active.None? then Some(0)
                         else if !answer.Confirms? then None
                         else active
      ensures versions == if active.None? || answer.NothingDone? then old(versions)
                          else Bumped(old(versions), AccountKey(email))
      ensures active.Some? && !answer.NothingDone? ==> forall t: Payload ::
                (email != "" && t.email == email && t.accountVer <= VersionOf(old(versions), AccountKey(email)))
                ==> !IsCurrent(versions, t)
      ensures forall t: Payload :: t.email != email ==> IsCurrent(versions, t) == IsCurrent(old(versions), t)
    {
      AccountBump(email);
      if active.None? {
        return Some(0);
      }
      var ok := BumpVersion(AccountKey(email), answer);
      if !ok {
        return None;
      }
      revoked := active;
    }

    /** After a password change. The tokens of the exempt chain end as well, which is why its caller must
        sign new ones; only the report leaves it out. */
    method RevokeAllTokensForUserExceptChain(email: string, exempt: string, active: Option<nat>, answer: Answer)
      returns (revoked: Option<nat>)
      modifies this`versions, this`cache
      ensures revoked == if active.None? then Some(0)
                         else if !answer.Confirms? then None
                         else if active.value > 1 then Some(active.value - 1) else Some(0)
      ensures versions == if active.None? || answer.NothingDone? then old(versions)
                          else Bumped(old(versions), AccountKey(email))
      ensures active.Some? && !answer.NothingDone? ==> forall t: Payload ::
                (email != "" && t.email == email && t.accountVer <= VersionOf(old(versions), AccountKey(email)))
                ==> !IsCurrent(versions, t)
      ensures forall t: Payload :: t.email != email ==> IsCurrent(versions, t) == IsCurrent(old(versions), t)
    {
      var all := RevokeAllTokensForUser(email, active, answer);
      revoked := if all.Some? && all.value >= 1 then Some(all.value - 1) else all;
    }

    /** One bump ends every token of the chain signed so far and no token of any other chain. */
    method RevokeChainForUser(email: string, chain: string, answer: Answer) returns (confirmed: bool)
      requires IsChainId(chain)
      modifies this`versions, this`cache
      ensures confirmed <==> answer.Confirms?
      ensures versions == if answer.NothingDone? then old(versions) else Bumped(old(versions), ChainKey(email, chain))
      ensures forall t: Payload ::
                (!answer.NothingDone? && email != "" && t.email == email && t.chain == chain
                 && t.chainVer <= VersionOf(old(versions), ChainKey(email, chain)))
                ==> !IsCurrent(versions, t)
      ensures forall t: Payload ::
                ((t.email != email || t.chain != chain) && (t.chain == "" || IsChainId(t.chain)))
                ==> IsCurrent(versions, t) == IsCurrent(old(versions), t)
    {
      confirmed := BumpVersion(ChainKey(email, chain), answer);
      forall t: Payload | (t.email != email || t.chain != chain) && (t.chain == "" || IsChainId(t.chain))
        ensures IsCurrent(versions, t) == IsCurrent(old(versions), t)
      {
        AccountAndChainKeysDiffer(t.email, email, chain);
        if t.chain != "" {
          ChainKeyInjective(t.email, t.chain, email, chain);
        }
      }
    }

    /** A token that `refresh_tokens` goes on to claim. */
    predicate MayRotate(t: Payload)
      reads this
    {
      now < t.exp && t.kind == Refresh && IsCurrent(versions, t) && t.email != "" && t.chain != ""
    }

    /** The whole of a refresh, case by case: a token that may not rotate changes nothing; a first use
        is claimed and returns a pair of the same chain and versions; a benign repeat changes nothing;
        any other repeat revokes the chain. */
    method RefreshTokens(t: Payload, ip: Option<string>, accessJti: Jti, refreshJti: Jti, answer: Answer)
      returns (pair: Option<(Payload, Payload)>)
      requires t.chain == "" || IsChainId(t.chain)
      modifies this`claims, this`versions, this`cache
      ensures old(MayRotate(t)) <==>
                && now < t.exp && t.kind.Refresh? && t.email != "" && t.chain != ""
                && old(VersionOf(versions, AccountKey(t.email))) == t.accountVer
                && old(VersionOf(versions, ChainKey(t.email, t.chain))) == t.chainVer
      ensures !old(MayRotate(t)) ==> pair == None && claims == old(claims) && versions == old(versions)
      ensures old(MayRotate(t)) && t.jti !in old(claims) ==>
                && claims == old(claims)[t.jti := ClaimRow(now, t.exp, ip, t.accountVer, t.chainVer)]
                && versions == old(versions)
                && (pair.Some? <==> cfg.refreshTtl > 0)
      ensures t.jti in old(claims) ==> pair == None && claims == old(claims)
      ensures old(MayRotate(t)) && t.jti in old(claims) ==>
                versions == if old(IsBenign(claims, t.jti, ip, now, cfg.grace)) || answer.NothingDone?
                            then old(versions)
                            else Bumped(old(versions), ChainKey(t.email, t.chain))
      ensures pair.Some? ==>
                && pair.value.0 ==
                    Payload(t.email, Access, accessJti, t.chain, t.accountVer, t.chainVer, now + cfg.accessTtl)
                && pair.value.1 ==
                    Payload(t.email, Refresh, refreshJti, t.chain, t.accountVer, t.chainVer, now + cfg.refreshTtl)
                && IsCurrent(versions, pair.value.1)
    {
      pair := None;
      if t.exp <= now || t.kind != Refresh {
        return;
      }
      var current := IsCurrentVersion(t);
      if !current || t.email == "" || t.chain == "" {
        return;
      }
      var claimed, row := ClaimJtiForRotation(t, ip);
      if !claimed {
        var benign := IsBenignDuplicateRotation(t.jti, ip);
        if !benign {
          var _ := RevokeChainForUser(t.email, t.chain, answer);
        }
        return;
      }
      var access := TokenRotation.Child(cfg, t, Access, row, accessJti);
      var child := TokenRotation.Child(cfg, t, Refresh, row, refreshJti);
      if child.exp <= now || child.accountVer != row.accountVer || child.chainVer != row.chainVer {
        return;
      }
      current := IsCurrentVersion(child);
      if !current {
        return;
      }
      pair := Some((access, child));
    }

    /** Replaying a token that was just rotated, from elsewhere or after the grace window, takes the
        pair it was rotated into with it. */
    method ReplayAfterRotation(t: Payload, ip: Option<string>, a: Jti, b: Jti, thief: Option<string>, later: nat)
      returns (pair: Option<(Payload, Payload)>)
      requires MayRotate(t) && IsChainId(t.chain) && t.jti !in claims
      requires cfg.refreshTtl > 0 && now <= later < t.exp
      modifies this
      ensures pair.Some?
      ensures IsCurrent(versions, pair.value.1) <==> cfg.grace > 0 && thief == ip && later - old(now) <= cfg.grace
    {
      pair := RefreshTokens(t, ip, a, b, Confirms(true));
      now := later;
      var _ := RefreshTokens(t, thief, a, b, Confirms(true));
    }

    /** One DELETE of the earliest rows, at most 5000 of them; a short batch was the last one. */
    method DeleteBatch() returns (count: nat)
      modifies this`claims
      ensures claims.Keys <= old(claims).Keys && count == |old(claims)| - |claims| && count <= TokenRotation.SWEEP_BATCH
      ensures forall j <- claims :: claims[j] == old(claims)[j]
      ensures forall j <- old(claims) :: j in claims || old(claims)[j].expiresAt < now
      ensures OldestGone(old(claims), claims)
      ensures count < TokenRotation.SWEEP_BATCH ==> forall j <- claims :: now <= claims[j].expiresAt
    {
      var expired := Expired(claims, now);
      var limit := if |expired| < TokenRotation.SWEEP_BATCH then |expired| else TokenRotation.SWEEP_BATCH;
      ghost var _ := EarliestBatch(claims, expired, limit);
      var batch: set<Jti> :| batch <= expired && |batch| == limit && IsEarliest(claims, expired, batch);
      if limit == |expired| {
        SameSizeSubset(batch, expired);
      }
      KeysMinus(claims, batch);
      EarliestGone(claims, now, batch);
      claims := claims - batch;
      count := limit;
    }

    /** The daily sweep: what is left is exactly what has not expired. */
    method PurgeConsumedRefreshTokens() returns (deleted: nat)
      modifies this`claims
      ensures claims == map j | j in old(claims) && now <= old(claims)[j].expiresAt :: old(claims)[j]
      ensures deleted == |old(claims)| - |claims|
    {
      deleted := 0;
      var batchCount := TokenRotation.SWEEP_BATCH;
      while batchCount == TokenRotation.SWEEP_BATCH
        invariant claims.Keys <= old(claims).Keys
        invariant forall j <- claims :: claims[j] == old(claims)[j]
        invariant forall j <- old(claims) :: j in claims || old(claims)[j].expiresAt < now
        invariant deleted == |old(claims)| - |claims|
        invariant batchCount <= TokenRotation.SWEEP_BATCH
        invariant batchCount < TokenRotation.SWEEP_BATCH ==> forall j <- claims :: now <= claims[j].expiresAt
        decreases |claims|, batchCount
      {
        batchCount := DeleteBatch();
        deleted := deleted + batchCount;
      }
    }
  }

  lemma KeysMinus(claims: Claims, batch: set<Jti>)
    requires batch <= claims.Keys
    ensures (claims - batch).Keys == claims.Keys - batch && |claims - batch| == |claims| - |batch|
  {
    var rest := claims - batch;
    assert rest.Keys == claims.Keys - batch;
    assert |rest| == |rest.Keys| && |claims| == |claims.Keys|;
  }

  lemma SameSizeSubset(a: set<Jti>, b: set<Jti>)
    requires a <= b && |a| == |b|
    ensures a == b
  {
    assert b == a + (b - a);
    assert |b - a| == 0;
  }
}
