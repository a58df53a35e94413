/**
 Session-event leases under any interleaving of openings, closings and the
 passing of time. `leases` is history: every lease ever granted. A caller reads
 its clock some time before its script is executed.
 */
module SessionLeases {
  import opened Options
  import opened LeaseStore

  const MAX_CONNECTION_SECONDS := 900

  datatype Config = Config(accountLimit: int, ipLimit: int, grace: int)

  datatype Lease = Lease(email: string, address: string, expires: int, released: bool)

  datatype State = State(clock: int, zsets: ZSets, leases: map<Token, Lease>)

  datatype Event =
    | Tick(to: int)
    | Open(token: Token, email: string, address: string, readAt: int)
    | Close(token: Token)

  predicate Enabled(s: State, ev: Event) {
    match ev
    case Tick(to) => s.clock <= to
    case Open(token, _, _, readAt) => token !in s.leases && readAt <= s.clock
    case Close(token) => token in s.leases
  }

  function ArgsOf(cfg: Config, ev: Event): Args
    requires ev.Open?
  {
    Args(ev.readAt, ev.readAt + MAX_CONNECTION_SECONDS, cfg.accountLimit, cfg.ipLimit, ev.token,
         MAX_CONNECTION_SECONDS + cfg.grace)
  }

  function Eval(cfg: Config, s: State, ev: Event): (ZSets, bool)
    requires ev.Open?
  {
    Acquire(s.zsets, s.clock, Account(ev.email), Ip(ev.address), ArgsOf(cfg, ev))
  }

  function Next(cfg: Config, s: State, ev: Event): State
    requires Enabled(s, ev)
  {
    match ev
    case Tick(to) => s.(clock := to)
    case Open(token, email, address, readAt) =>
      var (zsets, admitted) := Eval(cfg, s, ev);
      State(s.clock, zsets,
            if admitted then s.leases[token := Lease(email, address, readAt + MAX_CONNECTION_SECONDS, false)]
            else s.leases)
    case Close(token) =>
      var lease := s.leases[token];
      State(s.clock, Release(s.zsets, s.clock, Account(lease.email), Ip(lease.address), token),
            s.leases[token := lease.(released := true)])
  }

  ghost predicate Initial(s: State) {
    s.zsets == map[] && s.leases == map[]
  }

  // ---- invariant --------------------------------------------------------------------------

  predicate Concerns(lease: Lease, k: Key) {
    k == Account(lease.email) || k == Ip(lease.address)
  }

  predicate IsActive(s: State, t: Token) {
    t in s.leases && !s.leases[t].released && s.clock < s.leases[t].expires
  }

  function View(s: State, k: Key): map<Token, int> {
    Members(s.zsets, s.clock, k)
  }

  /** The unexpired leases of an account or an address, from the history. */
  function Holding(s: State, k: Key): set<Token> {
    set t | t in s.leases && IsActive(s, t) && Concerns(s.leases[t], k)
  }

  function LimitOf(cfg: Config, k: Key): int {
    if k.Account? then cfg.accountLimit else cfg.ipLimit
  }

  predicate StoredIn(s: State, t: Token, k: Key)
    requires t in s.leases
  {
    t in View(s, k) && View(s, k)[t] == s.leases[t].expires
  }

  predicate Stored(s: State, t: Token)
    requires t in s.leases
  {
    IsActive(s, t) ==> StoredIn(s, t, Account(s.leases[t].email)) && StoredIn(s, t, Ip(s.leases[t].address))
  }

  predicate Sound(cfg: Config, s: State, k: Key) {
    forall t <- View(s, k) ::
      && t in s.leases && !s.leases[t].released && Concerns(s.leases[t], k) && View(s, k)[t] == s.leases[t].expires
      && DeadlineOf(s.zsets, s.clock, k).Some? && View(s, k)[t] + cfg.grace <= DeadlineOf(s.zsets, s.clock, k).value
  }

  predicate Within(cfg: Config, s: State, k: Key) {
    |Holding(s, k)| <= LimitOf(cfg, k) || Holding(s, k) == {}
  }

  predicate Bounded(s: State, t: Token)
    requires t in s.leases
  {
    s.leases[t].expires <= s.clock + MAX_CONNECTION_SECONDS
  }

  ghost predicate Inv(cfg: Config, s: State) {
    && (forall t <- s.leases :: Stored(s, t))
    && (forall t <- s.leases :: Bounded(s, t))
    && (forall k: Key :: Sound(cfg, s, k))
    && (forall k: Key :: Within(cfg, s, k))
  }

  lemma InitialInv(cfg: Config, s: State)
    requires Initial(s)
    ensures Inv(cfg, s)
  {
  }

  // ---- time -------------------------------------------------------------------------------

  lemma TickKeepsSound(cfg: Config, s: State, to: int, k: Key)
    requires s.clock <= to && Sound(cfg, s, k)
    ensures Sound(cfg, s.(clock := to), k)
  {
  }

  /** The whole key is not dropped before the last of its leases. */
  lemma TickKeepsStored(cfg: Config, s: State, to: int, t: Token)
    requires cfg.grace >= 0 && s.clock <= to && t in s.leases && Stored(s, t)
    requires Sound(cfg, s, Account(s.leases[t].email)) && Sound(cfg, s, Ip(s.leases[t].address))
    ensures Stored(s.(clock := to), t)
  {
  }

  lemma FewerIsWithin(cfg: Config, s: State, s': State, k: Key)
    requires Within(cfg, s, k) && Holding(s', k) <= Holding(s, k)
    ensures Within(cfg, s', k)
  {
    SubsetSize(Holding(s', k), Holding(s, k));
  }

  lemma {:induction false} SubsetSize(a: set<Token>, b: set<Token>)
    requires a <= b
    ensures |a| <= |b|
    decreases a
  {
    if a != {} {
      var t :| t in a;
      SubsetSize(a - {t}, b - {t});
    }
  }

  lemma TickKeepsInv(cfg: Config, s: State, to: int)
    requires cfg.grace >= 0 && Inv(cfg, s) && s.clock <= to
    ensures Inv(cfg, Next(cfg, s, Tick(to)))
  {
    hide Sound, Stored, Within;
    var s' := s.(clock := to);
    forall t <- s'.leases
      ensures Stored(s', t) && Bounded(s', t)
    {
      assert Bounded(s, t);
      TickKeepsStored(cfg, s, to, t);
    }
    forall k: Key
      ensures Sound(cfg, s', k) && Within(cfg, s', k)
    {
      TickKeepsSound(cfg, s, to, k);
      FewerIsWithin(cfg, s, s', k);
    }
  }

  // ---- opening ----------------------------------------------------------------------------

  /** What the sets hold after the script of `ev`. */
  lemma ViewAfterOpen(cfg: Config, s: State, ev: Event, k: Key)
    requires cfg.grace >= 0 && ev.Open? && Enabled(s, ev)
    ensures var s' := Next(cfg, s, ev);
      var touched := k == Account(ev.email) || k == Ip(ev.address);
      if touched && Eval(cfg, s, ev).1 then
        && View(s', k) == Above(View(s, k), ev.readAt)[ev.token := ev.readAt + MAX_CONNECTION_SECONDS]
        && DeadlineOf(s'.zsets, s'.clock, k) == Some(s.clock + MAX_CONNECTION_SECONDS + cfg.grace)
      else
        && View(s', k) == (if touched then Above(View(s, k), ev.readAt) else View(s, k))
        && (View(s', k) != map[] ==> DeadlineOf(s'.zsets, s'.clock, k) == DeadlineOf(s.zsets, s.clock, k))
  {
    hide Acquire, Members, DeadlineOf, Above;
    AcquireSpec(s.zsets, s.clock, Account(ev.email), Ip(ev.address), ArgsOf(cfg, ev), k);
  }

  lemma OpenKeepsSound(cfg: Config, s: State, ev: Event, k: Key)
    requires cfg.grace >= 0 && ev.Open? && Enabled(s, ev) && Sound(cfg, s, k)
    requires forall t <- s.leases :: Bounded(s, t)
    ensures Sound(cfg, Next(cfg, s, ev), k)
  {
    hide Acquire, Members, DeadlineOf;
    ViewAfterOpen(cfg, s, ev, k);
    var s' := Next(cfg, s, ev);
    forall t <- View(s', k)
      ensures t in s'.leases && !s'.leases[t].released && Concerns(s'.leases[t], k) &&
              View(s', k)[t] == s'.leases[t].expires
      ensures DeadlineOf(s'.zsets, s'.clock, k).Some? &&
              View(s', k)[t] + cfg.grace <= DeadlineOf(s'.zsets, s'.clock, k).value
    {
      if t != ev.token {
        assert t in View(s, k) && Bounded(s, t);
      }
    }
  }

  lemma OpenKeepsStored(cfg: Config, s: State, ev: Event, t: Token)
    requires cfg.grace >= 0 && ev.Open? && Enabled(s, ev) && t in Next(cfg, s, ev).leases
    requires t in s.leases ==> Stored(s, t)
    ensures Stored(Next(cfg, s, ev), t)
  {
    hide Acquire, Members, DeadlineOf;
    var s' := Next(cfg, s, ev);
    ViewAfterOpen(cfg, s, ev, Account(s'.leases[t].email));
    ViewAfterOpen(cfg, s, ev, Ip(s'.leases[t].address));
  }

  /** Every unexpired lease is among the members the script counts. */
  lemma HoldingIsCounted(s: State, k: Key, readAt: int)
    requires readAt <= s.clock && forall t <- s.leases :: Stored(s, t)
    ensures Holding(s, k) <= Above(View(s, k), readAt).Keys
    ensures |Holding(s, k)| <= |Above(View(s, k), readAt)|
  {
    hide Members;
    forall t <- Holding(s, k)
      ensures t in Above(View(s, k), readAt)
    {
      assert Stored(s, t);
    }
    SubsetSize(Holding(s, k), Above(View(s, k), readAt).Keys);
    assert |Above(View(s, k), readAt)| == |Above(View(s, k), readAt).Keys|;
  }

  lemma HoldingAfterOpen(cfg: Config, s: State, ev: Event, k: Key)
    requires ev.Open? && Enabled(s, ev)
    ensures var s' := Next(cfg, s, ev);
      if Eval(cfg, s, ev).1 && (k == Account(ev.email) || k == Ip(ev.address))
      then Holding(s', k) <= Holding(s, k) + {ev.token} else Holding(s', k) == Holding(s, k)
  {
    hide Acquire;
    var s' := Next(cfg, s, ev);
    assert forall t :: t in s.leases ==> IsActive(s', t) == IsActive(s, t);
  }

  lemma OpenKeepsWithin(cfg: Config, s: State, ev: Event, k: Key)
    requires ev.Open? && Enabled(s, ev) && Within(cfg, s, k)
    requires forall t <- s.leases :: Stored(s, t)
    ensures Within(cfg, Next(cfg, s, ev), k)
  {
    hide Acquire, Members, Holding, Stored, Above;
    var s' := Next(cfg, s, ev);
    HoldingAfterOpen(cfg, s, ev, k);
    if Eval(cfg, s, ev).1 && (k == Account(ev.email) || k == Ip(ev.address)) {
      AcquireAdmits(s.zsets, s.clock, Account(ev.email), Ip(ev.address), ArgsOf(cfg, ev));
      HoldingIsCounted(s, k, ev.readAt);
      SubsetSize(Holding(s', k), Holding(s, k) + {ev.token});
    }
  }

  lemma OpenKeepsInv(cfg: Config, s: State, ev: Event)
    requires cfg.grace >= 0 && Inv(cfg, s) && ev.Open? && Enabled(s, ev)
    ensures Inv(cfg, Next(cfg, s, ev))
  {
    hide Sound, Stored, Within, Acquire;
    var s' := Next(cfg, s, ev);
    forall t <- s'.leases
      ensures Stored(s', t) && Bounded(s', t)
    {
      if t in s.leases {
        assert Bounded(s, t);
      }
      OpenKeepsStored(cfg, s, ev, t);
    }
    forall k: Key
      ensures Sound(cfg, s', k) && Within(cfg, s', k)
    {
      OpenKeepsSound(cfg, s, ev, k);
      OpenKeepsWithin(cfg, s, ev, k);
    }
  }

  // ---- closing ----------------------------------------------------------------------------

  lemma ViewAfterClose(cfg: Config, s: State, token: Token, k: Key)
    requires token in s.leases
    ensures var s' := Next(cfg, s, Close(token));
      && View(s', k) == (if Concerns(s.leases[token], k) then View(s, k) - {token} else View(s, k))
      && (View(s', k) != map[] ==> DeadlineOf(s'.zsets, s'.clock, k) == DeadlineOf(s.zsets, s.clock, k))
  {
    hide Release, Members, DeadlineOf;
    var lease := s.leases[token];
    ReleaseSpec(s.zsets, s.clock, Account(lease.email), Ip(lease.address), token, k);
  }

  lemma CloseKeepsSound(cfg: Config, s: State, token: Token, k: Key)
    requires token in s.leases && Sound(cfg, s, k)
    ensures Sound(cfg, Next(cfg, s, Close(token)), k)
  {
    hide Release, Members, DeadlineOf;
    ViewAfterClose(cfg, s, token, k);
    var s' := Next(cfg, s, Close(token));
    forall t <- View(s', k)
      ensures t in s'.leases && !s'.leases[t].released && Concerns(s'.leases[t], k) &&
              View(s', k)[t] == s'.leases[t].expires
      ensures DeadlineOf(s'.zsets, s'.clock, k).Some? &&
              View(s', k)[t] + cfg.grace <= DeadlineOf(s'.zsets, s'.clock, k).value
    {
      assert t in View(s, k);
    }
  }

  lemma CloseKeepsStored(cfg: Config, s: State, token: Token, t: Token)
    requires token in s.leases && t in s.leases && Stored(s, t)
    ensures Stored(Next(cfg, s, Close(token)), t)
  {
    hide Release, Members, DeadlineOf;
    ViewAfterClose(cfg, s, token, Account(s.leases[t].email));
    ViewAfterClose(cfg, s, token, Ip(s.leases[t].address));
  }

  lemma CloseKeepsInv(cfg: Config, s: State, token: Token)
    requires Inv(cfg, s) && token in s.leases
    ensures Inv(cfg, Next(cfg, s, Close(token)))
  {
    hide Sound, Stored, Within, Release;
    var s' := Next(cfg, s, Close(token));
    forall t <- s'.leases
      ensures Stored(s', t) && Bounded(s', t)
    {
      assert Bounded(s, t);
      CloseKeepsStored(cfg, s, token, t);
    }
    forall k: Key
      ensures Sound(cfg, s', k) && Within(cfg, s', k)
    {
      CloseKeepsSound(cfg, s, token, k);
      assert Holding(s', k) <= Holding(s, k);
      FewerIsWithin(cfg, s, s', k);
    }
  }

  lemma InvPreserved(cfg: Config, s: State, ev: Event)
    requires cfg.grace >= 0 && Inv(cfg, s) && Enabled(s, ev)
    ensures Inv(cfg, Next(cfg, s, ev))
  {
    hide Inv, Next;
    match ev
    case Tick(to) => TickKeepsInv(cfg, s, to);
    case Open(_, _, _, _) => OpenKeepsInv(cfg, s, ev);
    case Close(token) => CloseKeepsInv(cfg, s, token);
  }

  // ---- runs -------------------------------------------------------------------------------

  ghost predicate StepAt(cfg: Config, ss: seq<State>, evs: seq<Event>, i: nat)
    requires i < |evs| && |ss| == |evs| + 1
  {
    Enabled(ss[i], evs[i]) && ss[i + 1] == Next(cfg, ss[i], evs[i])
  }

  ghost predicate IsRun(cfg: Config, ss: seq<State>, evs: seq<Event>) {
    && |ss| == |evs| + 1
    && Initial(ss[0])
    && forall i :: 0 <= i < |evs| ==> StepAt(cfg, ss, evs, i)
  }

  lemma {:induction false} RunInv(cfg: Config, ss: seq<State>, evs: seq<Event>, n: nat)
    requires cfg.grace >= 0 && IsRun(cfg, ss, evs) && n <= |evs|
    ensures Inv(cfg, ss[n])
  {
    hide Next, Enabled;
    if n == 0 {
      InitialInv(cfg, ss[0]);
    } else {
      hide Inv;
      RunInv(cfg, ss, evs, n - 1);
      assert StepAt(cfg, ss, evs, n - 1);
      InvPreserved(cfg, ss[n - 1], evs[n - 1]);
    }
  }

  /** The unexpired leases of an account or an address never exceed its limit. */
  lemma LimitsHold(cfg: Config, ss: seq<State>, evs: seq<Event>, n: nat, k: Key)
    requires cfg.grace >= 0 && IsRun(cfg, ss, evs) && n <= |evs|
    ensures |Holding(ss[n], k)| <= if LimitOf(cfg, k) >= 0 then LimitOf(cfg, k) else 0
  {
    RunInv(cfg, ss, evs, n);
    assert Within(cfg, ss[n], k);
  }

  /** Expiry of whole keys loses no unexpired lease, and what is unexpired in either set is a lease
      that is in both. */
  lemma SetsAgree(cfg: Config, ss: seq<State>, evs: seq<Event>, n: nat, email: string, address: string, t: Token)
    requires cfg.grace >= 0 && IsRun(cfg, ss, evs) && n <= |evs|
    requires t in ss[n].leases && ss[n].leases[t].email == email && ss[n].leases[t].address == address
    ensures var inAccount := t in Above(View(ss[n], Account(email)), ss[n].clock);
      var inIp := t in Above(View(ss[n], Ip(address)), ss[n].clock);
      inAccount == inIp == IsActive(ss[n], t)
  {
    RunInv(cfg, ss, evs, n);
    assert Stored(ss[n], t) && Sound(cfg, ss[n], Account(email)) && Sound(cfg, ss[n], Ip(address));
  }

  /** The members that a script with an up-to-date clock counts are the unexpired leases. */
  lemma CountedIsHolding(cfg: Config, s: State, k: Key)
    requires Inv(cfg, s)
    ensures Above(View(s, k), s.clock).Keys == Holding(s, k)
    ensures |Above(View(s, k), s.clock)| == |Holding(s, k)|
  {
    hide Members;
    HoldingIsCounted(s, k, s.clock);
    assert Sound(cfg, s, k);
    assert |Above(View(s, k), s.clock)| == |Above(View(s, k), s.clock).Keys|;
  }

  /** A request is admitted only below both limits, and if its clock is up to date exactly then. */
  lemma AdmittedIffBelowLimits(cfg: Config, ss: seq<State>, evs: seq<Event>, n: nat, ev: Event)
    requires cfg.grace >= 0 && IsRun(cfg, ss, evs) && n <= |evs| && ev.Open? && Enabled(ss[n], ev)
    ensures var below := |Holding(ss[n], Account(ev.email))| < cfg.accountLimit &&
            |Holding(ss[n], Ip(ev.address))| < cfg.ipLimit;
      && (Eval(cfg, ss[n], ev).1 ==> below)
      && (ev.readAt == ss[n].clock ==> (Eval(cfg, ss[n], ev).1 <==> below))
  {
    var s := ss[n];
    RunInv(cfg, ss, evs, n);
    AcquireAdmits(s.zsets, s.clock, Account(ev.email), Ip(ev.address), ArgsOf(cfg, ev));
    HoldingIsCounted(s, Account(ev.email), ev.readAt);
    HoldingIsCounted(s, Ip(ev.address), ev.readAt);
    CountedIsHolding(cfg, s, Account(ev.email));
    CountedIsHolding(cfg, s, Ip(ev.address));
    hide Inv, Acquire, Members, Above, Holding;
  }

  // ---- without a grace period -------------------------------------------------------------

  function LifeOfKey(cfg: Config): int {
    if cfg.grace > -MAX_CONNECTION_SECONDS then MAX_CONNECTION_SECONDS + cfg.grace else 0
  }

  /** The first lease of empty sets. */
  lemma FirstLease(cfg: Config, s: State, ev: Event)
    requires ev.Open? && Enabled(s, ev) && s.zsets == map[] && cfg.accountLimit >= 1 && cfg.ipLimit >= 1
    ensures Eval(cfg, s, ev).1
    ensures View(Next(cfg, s, ev).(clock := s.clock + LifeOfKey(cfg)), Account(ev.email)) == map[]
  {
    var account, ip := Account(ev.email), Ip(ev.address);
    var args := ArgsOf(cfg, ev);
    hide Acquire;
    AcquireAdmits(s.zsets, s.clock, account, ip, args);
    assert Above(map[], args.now) == map[];
    if args.ttl > 0 {
      AcquireSpec(s.zsets, s.clock, account, ip, args, account);
    } else {
      DroppedAtOnce(s.zsets, s.clock, account, ip, args);
    }
  }

  /** EXPIRE with a time that is not positive deletes the key. */
  lemma DroppedAtOnce(zs: ZSets, clock: int, account: Key, ip: Key, args: Args)
    requires account != ip && args.ttl <= 0 && Acquire(zs, clock, account, ip, args).1
    ensures Members(Acquire(zs, clock, account, ip, args).0, clock, account) == map[]
  {
    var cleaned := Cleaned(zs, clock, account, ip, args.now);
    var added := Add(Add(cleaned, clock, account, args.expires, args.token), clock, ip, args.expires, args.token);
    hide Add, Cleaned;
    assert account !in Expire(added, clock, account, args.ttl) || !Exists(added, clock, account);
  }

  /** With any negative grace the whole-key expiry drops a lease that has not expired. */
  lemma GraceIsNeeded(cfg: Config) returns (ss: seq<State>, evs: seq<Event>)
    requires cfg.grace < 0 && cfg.accountLimit >= 1 && cfg.ipLimit >= 1
    ensures IsRun(cfg, ss, evs) && |evs| == 2
    ensures IsActive(ss[2], 0) && ss[2].leases[0].email == "a" && View(ss[2], Account("a")) == map[]
  {
    var s0 := State(0, map[], map[]);
    var open := Open(0, "a", "b", 0);
    var tick := Tick(LifeOfKey(cfg));
    FirstLease(cfg, s0, open);
    hide Eval, View;
    var s1 := Next(cfg, s0, open);
    var s2 := Next(cfg, s1, tick);
    ss, evs := [s0, s1, s2], [open, tick];
    forall i | 0 <= i < |evs|
      ensures StepAt(cfg, ss, evs, i)
    {
      assert i == 0 || i == 1;
    }
  }
}
