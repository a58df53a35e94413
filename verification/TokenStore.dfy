/**
 The two durable tables behind token revocation and rotation, as values:
 `token_revocation_versions` (a counter per key) and `consumed_refresh_tokens`
 (one row per redeemed jti). A decoded JWT is a `Payload`.
 */
module TokenStore {
  import opened Options

  type Jti = string

  datatype TokenKind = Access | Refresh

  datatype Payload = Payload(
    email: string, kind: TokenKind, jti: Jti, chain: string,
    accountVer: nat, chainVer: nat, exp: nat)

  datatype ClaimRow = ClaimRow(
    consumedAt: nat, expiresAt: nat, ip: Option<string>, accountVer: nat, chainVer: nat)

  /** The settings the protocol reads, in clock ticks. */
  datatype Config = Config(accessTtl: nat, refreshTtl: nat, grace: int)

  type Versions = map<string, nat>
  type Claims = map<Jti, ClaimRow>

  function AccountKey(email: string): string {
    "account_ver:" + email
  }

  function ChainKey(email: string, chain: string): string {
    "chain_ver:" + email + ":" + chain
  }

  /** Chain ids are `uuid4().hex`; all that matters is that they are non-empty and have no colon. */
  predicate IsChainId(chain: string) {
    chain != "" && ':' !in chain
  }

  /** A missing row reads as version 0. */
  function VersionOf(versions: Versions, key: string): nat {
    if key in versions then versions[key] else 0
  }

  /** The upsert `version = version + 1`. */
  function Bumped(versions: Versions, key: string): Versions {
    versions[key := VersionOf(versions, key) + 1]
  }

  predicate AccountMatches(versions: Versions, t: Payload) {
    VersionOf(versions, AccountKey(t.email)) == t.accountVer
  }

  predicate ChainMatches(versions: Versions, t: Payload) {
    VersionOf(versions, ChainKey(t.email, t.chain)) == t.chainVer
  }

  /** What `is_current_version` answers when nothing else runs; an absent claim is not compared. */
  predicate IsCurrent(versions: Versions, t: Payload) {
    t.email == "" || (AccountMatches(versions, t) && (t.chain == "" || ChainMatches(versions, t)))
  }

  /** A counter has passed the version embedded in the token. */
  predicate IsStale(versions: Versions, t: Payload) {
    || VersionOf(versions, AccountKey(t.email)) > t.accountVer
    || VersionOf(versions, ChainKey(t.email, t.chain)) > t.chainVer
  }

  /** `is_benign_duplicate_rotation`: a same-IP repeat inside the grace window. */
  predicate IsBenign(claims: Claims, jti: Jti, ip: Option<string>, now: nat, grace: int) {
    && grace > 0
    && jti in claims
    && 0 <= now - claims[jti].consumedAt <= grace
    && claims[jti].ip == ip
  }

  function Ttl(cfg: Config, kind: TokenKind): nat {
    if kind == Access then cfg.accessTtl else cfg.refreshTtl
  }

  ghost predicate VersionsGrow(v: Versions, w: Versions) {
    forall key: string :: VersionOf(v, key) <= VersionOf(w, key)
  }

  /** Account keys and chain keys never meet. */
  lemma AccountAndChainKeysDiffer(email: string, email': string, chain: string)
    ensures AccountKey(email) != ChainKey(email', chain)
  {
    assert AccountKey(email)[0] == 'a' && ChainKey(email', chain)[0] == 'c';
  }

  lemma AccountKeyInjective(e: string, f: string)
    ensures AccountKey(e) == AccountKey(f) <==> e == f
  {
    assert AccountKey(e)[12..] == e && AccountKey(f)[12..] == f;
  }

  /** Emails may contain anything; colon-free chain ids are enough to make chain keys injective. */
  lemma ChainKeyInjective(e: string, c: string, f: string, d: string)
    requires IsChainId(c) && IsChainId(d)
    ensures ChainKey(e, c) == ChainKey(f, d) <==> e == f && c == d
  {
    var k, l := ChainKey(e, c), ChainKey(f, d);
    if k == l {
      var n := |k|;
      assert k[n - |c|..] == c && k[n - |c| - 1] == ':';
      assert l[n - |d|..] == d && l[n - |d| - 1] == ':';
      assert |c| == |d|;
      assert k[10..n - |c| - 1] == e && l[10..n - |d| - 1] == f;
    }
  }

  /** Without the colon-free guarantee two sessions of different accounts would share a counter. */
  lemma ColonsMakeChainKeysCollide()
    ensures ChainKey("a:b", "c") == ChainKey("a", "b:c")
  {
    assert ChainKey("a:b", "c") == "chain_ver:a:b:c" == ChainKey("a", "b:c");
  }
}
