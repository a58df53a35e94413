/**
 The sorted sets that hold session-event leases: the Valkey commands that the
 two scripts use, and the scripts.
 */
module LeaseStore {
  import opened Options

  type Token = nat

  /** `_lease_key`; the digest is taken to be injective. */
  datatype Key = Account(email: string) | Ip(address: string)

  /** Scores by member, and the time at which the whole key expires. */
  datatype ZSet = ZSet(members: map<Token, int>, deadline: Option<int>)

  type ZSets = map<Key, ZSet>

  predicate Exists(zs: ZSets, clock: int, k: Key) {
    k in zs && (zs[k].deadline.Some? ==> clock < zs[k].deadline.value)
  }

  function Members(zs: ZSets, clock: int, k: Key): map<Token, int> {
    if Exists(zs, clock, k) then zs[k].members else map[]
  }

  function DeadlineOf(zs: ZSets, clock: int, k: Key): Option<int> {
    if Exists(zs, clock, k) then zs[k].deadline else None
  }

  /** A key without members is deleted. */
  function Put(zs: ZSets, clock: int, k: Key, members: map<Token, int>): ZSets {
    if members == map[] then zs - {k} else zs[k := ZSet(members, DeadlineOf(zs, clock, k))]
  }

  function Above(members: map<Token, int>, score: int): map<Token, int> {
    map t | t in members && members[t] > score :: members[t]
  }

  /** ZREMRANGEBYSCORE key -inf score */
  function RemRangeByScore(zs: ZSets, clock: int, k: Key, score: int): ZSets {
    Put(zs, clock, k, Above(Members(zs, clock, k), score))
  }

  function Add(zs: ZSets, clock: int, k: Key, score: int, token: Token): ZSets {
    Put(zs, clock, k, Members(zs, clock, k)[token := score])
  }

  function Rem(zs: ZSets, clock: int, k: Key, token: Token): ZSets {
    Put(zs, clock, k, Members(zs, clock, k) - {token})
  }

  function Expire(zs: ZSets, clock: int, k: Key, ttl: int): ZSets {
    if !Exists(zs, clock, k) then zs
    else if ttl <= 0 then zs - {k}
    else zs[k := ZSet(zs[k].members, Some(clock + ttl))]
  }

  datatype Args = Args(now: int, expires: int, accountLimit: int, ipLimit: int, token: Token, ttl: int)

  function Cleaned(zs: ZSets, clock: int, account: Key, ip: Key, now: int): ZSets {
    RemRangeByScore(RemRangeByScore(zs, clock, account, now), clock, ip, now)
  }

  predicate HasRoom(zs: ZSets, clock: int, account: Key, ip: Key, args: Args) {
    |Members(zs, clock, account)| < args.accountLimit && |Members(zs, clock, ip)| < args.ipLimit
  }

  function Admitted(zs: ZSets, clock: int, account: Key, ip: Key, args: Args): ZSets {
    var added := Add(Add(zs, clock, account, args.expires, args.token), clock, ip, args.expires, args.token);
    Expire(Expire(added, clock, account, args.ttl), clock, ip, args.ttl)
  }

  /** `_ACQUIRE_LEASE_SCRIPT` */
  function Acquire(zs: ZSets, clock: int, account: Key, ip: Key, args: Args): (ZSets, bool) {
    var cleaned := Cleaned(zs, clock, account, ip, args.now);
    if HasRoom(cleaned, clock, account, ip, args) then (Admitted(cleaned, clock, account, ip, args), true)
    else (cleaned, false)
  }

  /** `_RELEASE_LEASE_SCRIPT` */
  function Release(zs: ZSets, clock: int, account: Key, ip: Key, token: Token): ZSets {
    Rem(Rem(zs, clock, account, token), clock, ip, token)
  }

  // ---- what the scripts leave behind ------------------------------------------------------

  lemma PutMembers(zs: ZSets, clock: int, k: Key, members: map<Token, int>, o: Key)
    ensures Members(Put(zs, clock, k, members), clock, o) == if o == k then members else Members(zs, clock, o)
    ensures o != k || members != map[] ==> DeadlineOf(Put(zs, clock, k, members), clock, o) == DeadlineOf(zs, clock, o)
  {
  }

  lemma CleanedMembers(zs: ZSets, clock: int, account: Key, ip: Key, now: int, o: Key)
    requires account != ip
    ensures Members(Cleaned(zs, clock, account, ip, now), clock, o) ==
            if o == account || o == ip then Above(Members(zs, clock, o), now) else Members(zs, clock, o)
    ensures Members(Cleaned(zs, clock, account, ip, now), clock, o) != map[] ==>
              DeadlineOf(Cleaned(zs, clock, account, ip, now), clock, o) == DeadlineOf(zs, clock, o)
  {
    hide Members, DeadlineOf, Above, Put;
    var first := RemRangeByScore(zs, clock, account, now);
    PutMembers(zs, clock, account, Above(Members(zs, clock, account), now), o);
    PutMembers(zs, clock, account, Above(Members(zs, clock, account), now), ip);
    PutMembers(first, clock, ip, Above(Members(first, clock, ip), now), o);
  }

  lemma AddedSet(zs: ZSets, clock: int, k: Key, score: int, token: Token)
    ensures Add(zs, clock, k, score, token) ==
            zs[k := ZSet(Members(zs, clock, k)[token := score], DeadlineOf(zs, clock, k))]
    ensures Exists(Add(zs, clock, k, score, token), clock, k)
  {
    assert token in Members(zs, clock, k)[token := score];
  }

  lemma AdmittedSets(zs: ZSets, clock: int, account: Key, ip: Key, args: Args)
    requires account != ip && args.ttl > 0
    ensures Admitted(zs, clock, account, ip, args) ==
            zs[account := ZSet(Members(zs, clock, account)[args.token := args.expires], Some(clock + args.ttl))]
              [ip := ZSet(Members(zs, clock, ip)[args.token := args.expires], Some(clock + args.ttl))]
  {
    var one := Add(zs, clock, account, args.expires, args.token);
    AddedSet(zs, clock, account, args.expires, args.token);
    AddedSet(one, clock, ip, args.expires, args.token);
    assert Exists(one, clock, ip) == Exists(zs, clock, ip);
  }

  lemma AdmittedMembers(zs: ZSets, clock: int, account: Key, ip: Key, args: Args, o: Key)
    requires account != ip && args.ttl > 0
    ensures var zs' := Admitted(zs, clock, account, ip, args);
      if o == account || o == ip
      then
        && Members(zs', clock, o) == Members(zs, clock, o)[args.token := args.expires]
        && DeadlineOf(zs', clock, o) == Some(clock + args.ttl)
      else Members(zs', clock, o) == Members(zs, clock, o) && DeadlineOf(zs', clock, o) == DeadlineOf(zs, clock, o)
  {
    hide Admitted;
    AdmittedSets(zs, clock, account, ip, args);
  }

  /** A script admits exactly when, without their expired members, both sets are below their limits. */
  lemma AcquireAdmits(zs: ZSets, clock: int, account: Key, ip: Key, args: Args)
    requires account != ip
    ensures Acquire(zs, clock, account, ip, args).1 <==>
            && |Above(Members(zs, clock, account), args.now)| < args.accountLimit
            && |Above(Members(zs, clock, ip), args.now)| < args.ipLimit
  {
    hide Cleaned, Members, Above, Admitted;
    CleanedMembers(zs, clock, account, ip, args.now, account);
    CleanedMembers(zs, clock, account, ip, args.now, ip);
  }

  /** An admission: the two sets without their expired members gain the token and a new deadline, and
      no other set is touched. A refusal only cleans. */
  lemma AcquireSpec(zs: ZSets, clock: int, account: Key, ip: Key, args: Args, o: Key)
    requires account != ip && args.ttl > 0
    ensures var (zs', ok) := Acquire(zs, clock, account, ip, args);
      if ok && (o == account || o == ip) then
        && Members(zs', clock, o) == Above(Members(zs, clock, o), args.now)[args.token := args.expires]
        && DeadlineOf(zs', clock, o) == Some(clock + args.ttl)
      else
        && Members(zs', clock, o) ==
            (if o == account || o == ip then Above(Members(zs, clock, o), args.now) else Members(zs, clock, o))
        && (Members(zs', clock, o) != map[] ==> DeadlineOf(zs', clock, o) == DeadlineOf(zs, clock, o))
  {
    hide Cleaned, Members, Above, Admitted, DeadlineOf, HasRoom;
    CleanedMembers(zs, clock, account, ip, args.now, o);
    AdmittedMembers(Cleaned(zs, clock, account, ip, args.now), clock, account, ip, args, o);
  }

  lemma ReleaseSpec(zs: ZSets, clock: int, account: Key, ip: Key, token: Token, o: Key)
    requires account != ip
    ensures Members(Release(zs, clock, account, ip, token), clock, o) ==
            if o == account || o == ip then Members(zs, clock, o) - {token} else Members(zs, clock, o)
    ensures Members(Release(zs, clock, account, ip, token), clock, o) != map[] ==>
              DeadlineOf(Release(zs, clock, account, ip, token), clock, o) == DeadlineOf(zs, clock, o)
  {
    hide Members, DeadlineOf, Put;
    var first := Rem(zs, clock, account, token);
    PutMembers(zs, clock, account, Members(zs, clock, account) - {token}, o);
    PutMembers(zs, clock, account, Members(zs, clock, account) - {token}, ip);
    PutMembers(first, clock, ip, Members(first, clock, ip) - {token}, o);
  }

  // ---- the server -------------------------------------------------------------------------

  class Valkey {
    var clock: int
    var zsets: ZSets

    constructor ()
      ensures clock == 0 && zsets == map[]
    {
      clock, zsets := 0, map[];
    }

    method ZRemRangeByScore(k: Key, score: int)
      modifies this`zsets
      ensures zsets == RemRangeByScore(old(zsets), clock, k, score)
    {
      if Exists(zsets, clock, k) {
        var kept := map t | t in zsets[k].members && zsets[k].members[t] > score :: zsets[k].members[t];
        if kept == map[] {
          zsets := zsets - {k};
        } else {
          zsets := zsets[k := zsets[k].(members := kept)];
        }
      } else {
        zsets := zsets - {k};
      }
    }

    method ZCard(k: Key) returns (n: nat)
      ensures n == |Members(zsets, clock, k)|
    {
      n := if Exists(zsets, clock, k) then |zsets[k].members| else 0;
    }

    method ZAdd(k: Key, score: int, token: Token)
      modifies this`zsets
      ensures zsets == Add(old(zsets), clock, k, score, token)
    {
      AddedSet(zsets, clock, k, score, token);
      if Exists(zsets, clock, k) {
        zsets := zsets[k := zsets[k].(members := zsets[k].members[token := score])];
      } else {
        zsets := zsets[k := ZSet(map[token := score], None)];
      }
    }

    method ZRem(k: Key, token: Token)
      modifies this`zsets
      ensures zsets == Rem(old(zsets), clock, k, token)
    {
      var left: map<Token, int> := if Exists(zsets, clock, k) then zsets[k].members - {token} else map[];
      ghost var none: map<Token, int> := map[];
      assert none - {token} == none;
      if left == map[] {
        zsets := zsets - {k};
      } else {
        zsets := zsets[k := zsets[k].(members := left)];
      }
    }

    method SetExpiry(k: Key, ttl: int)
      modifies this`zsets
      ensures zsets == Expire(old(zsets), clock, k, ttl)
    {
      if Exists(zsets, clock, k) {
        if ttl <= 0 {
          zsets := zsets - {k};
        } else {
          zsets := zsets[k := zsets[k].(deadline := Some(clock + ttl))];
        }
      }
    }

    method EvalAcquire(account: Key, ip: Key, args: Args) returns (admitted: bool)
      modifies this`zsets
      ensures (zsets, admitted) == Acquire(old(zsets), clock, account, ip, args)
    {
      ZRemRangeByScore(account, args.now);
      ZRemRangeByScore(ip, args.now);
      var n := ZCard(account);
      if n >= args.accountLimit {
        return false;
      }
      n := ZCard(ip);
      if n >= args.ipLimit {
        return false;
      }
      ZAdd(account, args.expires, args.token);
      ZAdd(ip, args.expires, args.token);
      SetExpiry(account, args.ttl);
      SetExpiry(ip, args.ttl);
      admitted := true;
    }

    /** The script's two deletions find nothing left to delete. */
    method EvalRelease(account: Key, ip: Key, token: Token)
      requires account != ip
      modifies this`zsets
      ensures zsets == Release(old(zsets), clock, account, ip, token)
    {
      hide Members, Rem;
      ZRem(account, token);
      ZRem(ip, token);
      EmptyIsGone(old(zsets), clock, account, ip, token);
      ghost var released := zsets;
      var n := ZCard(account);
      if n == 0 {
        NothingToDelete(zsets, account);
        zsets := zsets - {account};
      }
      assert zsets == released;
      n := ZCard(ip);
      if n == 0 {
        NothingToDelete(zsets, ip);
        zsets := zsets - {ip};
      }
    }
  }

  lemma NothingToDelete(zs: ZSets, k: Key)
    requires k !in zs
    ensures zs - {k} == zs
  {
  }

  lemma RemEmpties(zs: ZSets, clock: int, k: Key, token: Token, o: Key)
    ensures |Members(Rem(zs, clock, k, token), clock, k)| == 0 ==> k !in Rem(zs, clock, k, token)
    ensures o != k ==> (o in Rem(zs, clock, k, token) <==> o in zs)
    ensures o != k ==> Members(Rem(zs, clock, k, token), clock, o) == Members(zs, clock, o)
  {
    PutMembers(zs, clock, k, Members(zs, clock, k) - {token}, k);
    PutMembers(zs, clock, k, Members(zs, clock, k) - {token}, o);
  }

  lemma EmptyIsGone(zs: ZSets, clock: int, account: Key, ip: Key, token: Token)
    requires account != ip
    ensures var zs' := Release(zs, clock, account, ip, token);
      && (|Members(zs', clock, account)| == 0 ==> account !in zs')
      && (|Members(zs', clock, ip)| == 0 ==> ip !in zs')
  {
    hide Members, Rem;
    RemEmpties(zs, clock, account, token, ip);
    RemEmpties(Rem(zs, clock, account, token), clock, ip, token, account);
  }
}
