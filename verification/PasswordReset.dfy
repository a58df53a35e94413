/**
 Redemption of one password-reset token by any number of concurrent requests:
 one event per command to Valkey or to the database. Time is in seconds. `writes`
 and `takenBy` are history.
 */
module PasswordReset {
  import opened Options

  type ReqId = nat

  /** `exp` is the claim; decoding rejects from `limit` on. */
  datatype Token = Token(exp: real, limit: real)

  datatype Pc =
    | AtTake
    | AtCheck
    | AtWrite
    | AtRemaining
    | AtRestore(remaining: nat, since: real)
    | AtRevoke
    | Over

  datatype Request = Request(decodedAt: real, pc: Pc)

  datatype State = State(
    now: real,
    key: Option<real>,        // when Valkey drops it
    stored: bool,
    reqs: map<ReqId, Request>,
    writes: seq<ReqId>)       // history: the requests that wrote a password

  datatype WriteResult = Updated | NoSuchUser | Refused | UpdatedButUnanswered

  datatype Event =
    | Tick(to: real)
    | Store(seconds: nat)              // send_reset_email
    | Present(r: ReqId)
    | Take(r: ReqId, ack: bool)        // GETDEL; `ack` is false when its answer is lost
    | Check(r: ReqId, ok: bool)
    | Write(r: ReqId, result: WriteResult)
    | Remaining(r: ReqId)
    | Restore(r: ReqId)                // SET with EX
    | Fail(r: ReqId)

  predicate At(s: State, r: ReqId, pc: Pc) {
    r in s.reqs && s.reqs[r].pc == pc
  }

  predicate Enabled(s: State, ev: Event) {
    match ev
    case Tick(to) => s.now <= to
    case Store(_) => !s.stored
    case Present(r) => r !in s.reqs
    case Take(r, _) => At(s, r, AtTake)
    case Check(r, _) => At(s, r, AtCheck)
    case Write(r, _) => At(s, r, AtWrite)
    case Remaining(r) => At(s, r, AtRemaining)
    case Restore(r) => r in s.reqs && s.reqs[r].pc.AtRestore?
    case Fail(r) => r in s.reqs
  }

  predicate KeyLives(s: State) {
    s.key.Some? && s.now < s.key.value
  }

  /** `int(exp - now)`, which truncates, and the guard that it is positive. */
  function RestorePc(t: Token, now: real): Pc {
    if t.exp - now >= 1.0 then AtRestore((t.exp - now).Floor, now) else Over
  }

  function Moved(s: State, r: ReqId, pc: Pc): map<ReqId, Request>
    requires r in s.reqs
  {
    s.reqs[r := s.reqs[r].(pc := pc)]
  }

  function Next(t: Token, s: State, ev: Event): State
    requires Enabled(s, ev)
  {
    match ev
    case Tick(to) => s.(now := to)
    case Store(seconds) => s.(key := Some(s.now + seconds as real), stored := true)
    case Present(r) => s.(reqs := s.reqs[r := Request(s.now, if s.now < t.limit then AtTake else Over)])
    case Take(r, ack) =>
      if KeyLives(s) then s.(key := None, reqs := Moved(s, r, if ack then AtCheck else Over))
      else s.(reqs := Moved(s, r, Over))
    case Check(r, ok) => s.(reqs := Moved(s, r, if ok then AtWrite else AtRemaining))
    case Write(r, result) =>
      (match result
       case Updated => s.(reqs := Moved(s, r, AtRevoke), writes := s.writes + [r])
       case NoSuchUser => s.(reqs := Moved(s, r, AtRemaining))
       case Refused => s.(reqs := Moved(s, r, Over))
       case UpdatedButUnanswered => s.(reqs := Moved(s, r, Over), writes := s.writes + [r]))
    case Remaining(r) => s.(reqs := Moved(s, r, RestorePc(t, s.now)))
    case Restore(r) => s.(key := Some(s.now + s.reqs[r].pc.remaining as real), reqs := Moved(s, r, Over))
    case Fail(r) => s.(reqs := Moved(s, r, Over))
  }

  ghost predicate Initial(s: State) {
    s.key.None? && !s.stored && s.reqs == map[] && s.writes == []
  }

  // ---- single use -------------------------------------------------------------------------

  /** Took the key and has neither written nor given it back. */
  predicate Holds(pc: Pc) {
    pc.AtCheck? || pc.AtWrite? || pc.AtRemaining? || pc.AtRestore?
  }

  function Winners(s: State): set<ReqId> {
    set r | r in s.reqs && Holds(s.reqs[r].pc)
  }

  function Count(b: bool): nat {
    if b then 1 else 0
  }

  function Uses(s: State): nat {
    Count(s.key.Some?) + |Winners(s)| + |s.writes|
  }

  predicate Inv(t: Token, s: State) {
    && Uses(s) <= Count(s.stored)
    && (forall r <- s.reqs :: !s.reqs[r].pc.Over? ==> s.reqs[r].decodedAt < t.limit)
    && (forall r <- s.writes :: r in s.reqs && s.reqs[r].decodedAt < t.limit)
  }

  lemma WinnersMove(s: State, r: ReqId, pc: Pc)
    requires r in s.reqs
    ensures |Winners(s.(reqs := Moved(s, r, pc)))| + Count(Holds(s.reqs[r].pc)) == |Winners(s)| + Count(Holds(pc))
  {
    var s' := s.(reqs := Moved(s, r, pc));
    OthersStay(s, r, pc);
    SizeWithout(Winners(s), r);
    SizeWithout(Winners(s'), r);
  }

  lemma OthersStay(s: State, r: ReqId, pc: Pc)
    requires r in s.reqs
    ensures Winners(s.(reqs := Moved(s, r, pc))) - {r} == Winners(s) - {r}
  {
  }

  lemma SizeWithout(all: set<ReqId>, r: ReqId)
    ensures |all| == |all - {r}| + Count(r in all)
  {
  }

  lemma WinnersDependOnRequests(s: State, s': State)
    requires s.reqs == s'.reqs
    ensures Winners(s) == Winners(s')
  {
    assert forall r :: r in Winners(s) <==> r in Winners(s');
  }

  lemma PresentKeepsWinners(t: Token, s: State, r: ReqId)
    requires r !in s.reqs
    ensures Winners(Next(t, s, Present(r))) == Winners(s)
  {
    var s' := Next(t, s, Present(r));
    assert !Holds(s'.reqs[r].pc);
    assert forall o :: o in Winners(s) <==> o in Winners(s');
  }

  /** A step moves the one use along, or loses it; it never makes a second. */
  lemma UsesNeverGrow(t: Token, s: State, ev: Event)
    requires Enabled(s, ev) && (ev.Store? ==> Uses(s) == 0)
    ensures Uses(Next(t, s, ev)) <= Uses(s) + Count(ev.Store?)
  {
    var s' := Next(t, s, ev);
    if ev.Tick? || ev.Store? {
      WinnersDependOnRequests(s, s');
    } else if ev.Present? {
      PresentKeepsWinners(t, s, ev.r);
    } else {
      var r := ev.r;
      WinnersMove(s, r, s'.reqs[r].pc);
      WinnersDependOnRequests(s.(reqs := s'.reqs), s');
    }
  }

  lemma InvPreserved(t: Token, s: State, ev: Event)
    requires Inv(t, s) && Enabled(s, ev)
    ensures Inv(t, Next(t, s, ev))
  {
    UsesNeverGrow(t, s, ev);
    hide Uses;
  }

  ghost predicate StepAt(t: Token, ss: seq<State>, evs: seq<Event>, i: nat)
    requires i < |evs| && |ss| == |evs| + 1
  {
    Enabled(ss[i], evs[i]) && ss[i + 1] == Next(t, ss[i], evs[i])
  }

  ghost predicate IsRun(t: Token, ss: seq<State>, evs: seq<Event>) {
    && |ss| == |evs| + 1
    && Initial(ss[0])
    && forall i :: 0 <= i < |evs| ==> StepAt(t, ss, evs, i)
  }

  lemma {:induction false} RunInv(t: Token, ss: seq<State>, evs: seq<Event>, n: nat)
    requires IsRun(t, ss, evs) && n <= |evs|
    ensures Inv(t, ss[n])
  {
    hide Next, Enabled;
    if n == 0 {
      assert Winners(ss[0]) == {};
    } else {
      hide Inv;
      RunInv(t, ss, evs, n - 1);
      assert StepAt(t, ss, evs, n - 1);
      InvPreserved(t, ss[n - 1], evs[n - 1]);
    }
  }

  /** The key, the requests that took it and the passwords written come to one at most, and only
      requests that decoded the token in time write. */
  lemma OneUsePerToken(t: Token, ss: seq<State>, evs: seq<Event>, n: nat)
    requires IsRun(t, ss, evs) && n <= |evs|
    ensures Count(ss[n].key.Some?) + |Winners(ss[n])| + |ss[n].writes| <= 1
    ensures |ss[n].writes| <= 1
    ensures forall r <- ss[n].writes :: r in ss[n].reqs && ss[n].reqs[r].decodedAt < t.limit
  {
    RunInv(t, ss, evs, n);
  }

  /** Once a password is written no request holds the token and none ever will. */
  lemma {:induction false} WrittenIsFinal(t: Token, ss: seq<State>, evs: seq<Event>, i: nat, n: nat)
    requires IsRun(t, ss, evs) && i <= n <= |evs| && ss[i].writes != []
    ensures ss[n].writes == ss[i].writes && ss[n].key.None? && Winners(ss[n]) == {}
    decreases n - i
  {
    OneUsePerToken(t, ss, evs, n);
    if i < n {
      WrittenIsFinal(t, ss, evs, i, n - 1);
      assert StepAt(t, ss, evs, n - 1);
      assert ss[n - 1].writes <= ss[n].writes;
    }
  }

  predicate IsLost(s: State) {
    s.stored && s.key.None? && Winners(s) == {}
  }

  lemma LostStep(t: Token, s: State, ev: Event)
    requires Enabled(s, ev) && IsLost(s)
    ensures IsLost(Next(t, s, ev))
  {
    NobodyHolds(s);
    NobodyWins(Next(t, s, ev));
  }

  lemma NobodyHolds(s: State)
    requires Winners(s) == {}
    ensures forall r <- s.reqs :: !Holds(s.reqs[r].pc)
  {
    forall r <- s.reqs
      ensures !Holds(s.reqs[r].pc)
    {
      assert r !in Winners(s);
    }
  }

  lemma NobodyWins(s: State)
    ensures (forall r <- s.reqs :: !Holds(s.reqs[r].pc)) ==> Winners(s) == {}
  {
  }

  lemma {:induction false} LostForever(t: Token, ss: seq<State>, evs: seq<Event>, i: nat, n: nat)
    requires IsRun(t, ss, evs) && i <= n <= |evs| && IsLost(ss[i])
    ensures IsLost(ss[n])
    decreases n - i
  {
    hide IsLost, Next, Enabled;
    if i < n {
      LostForever(t, ss, evs, i, n - 1);
      assert StepAt(t, ss, evs, n - 1);
      LostStep(t, ss[n - 1], evs[n - 1]);
    }
  }

  /** An exception after the key was taken, in the update or anywhere else, loses the link for good: no key is
      set again and nobody holds it, whether or not a password was written. */
  lemma ExceptionLosesTheLink(t: Token, ss: seq<State>, evs: seq<Event>, n: nat, m: nat, r: ReqId)
    requires IsRun(t, ss, evs) && n < m <= |evs| && r in ss[n].reqs && Holds(ss[n].reqs[r].pc)
    requires evs[n] == Fail(r) || evs[n] == Write(r, Refused) || evs[n] == Write(r, UpdatedButUnanswered)
    ensures ss[m].key.None? && Winners(ss[m]) == {}
  {
    assert StepAt(t, ss, evs, n);
    RunInv(t, ss, evs, n);
    assert r in Winners(ss[n]);
    OnlyHolder(ss[n], r);
    LostNow(t, ss[n], evs[n], r);
    LostForever(t, ss, evs, n + 1, m);
  }

  lemma OnlyHolder(s: State, r: ReqId)
    requires Uses(s) <= Count(s.stored) && r in Winners(s)
    ensures s.stored && s.key.None? && Winners(s) == {r}
  {
    SizeWithout(Winners(s), r);
    var others := Winners(s) - {r};
    assert |others| == 0;
    assert Winners(s) == others + {r};
  }

  lemma LostNow(t: Token, s: State, ev: Event, r: ReqId)
    requires Enabled(s, ev) && s.stored && s.key.None? && Winners(s) == {r}
    requires ev == Fail(r) || ev == Write(r, Refused) || ev == Write(r, UpdatedButUnanswered)
    ensures IsLost(Next(t, s, ev))
  {
    var s' := Next(t, s, ev);
    forall o <- s'.reqs
      ensures !Holds(s'.reqs[o].pc)
    {
      assert o != r ==> o !in Winners(s);
    }
  }

  /** A rejected password, and an update that finds no row, cost nothing: with a second left, and if the
      commands go through, the token can be taken again. */
  lemma RejectionGivesBack(t: Token, s: State, r: ReqId, ev: Event)
    requires ev == Check(r, false) || ev == Write(r, NoSuchUser)
    requires Enabled(s, ev) && t.exp - s.now >= 1.0
    ensures var s1 := Next(t, s, ev);
      && s1.key == s.key && s1.writes == s.writes && Enabled(s1, Remaining(r))
      && var s2 := Next(t, s1, Remaining(r));
      && Enabled(s2, Restore(r)) && KeyLives(Next(t, s2, Restore(r)))
  {
    assert (t.exp - s.now).Floor >= 1;
  }

  // ---- how long a restored key lives ------------------------------------------------------

  predicate Waiting(s: State, r: ReqId, remaining: nat, since: real) {
    r in s.reqs && s.reqs[r].pc == AtRestore(remaining, since)
  }

  lemma {:induction false} ComputedAt(t: Token, ss: seq<State>, evs: seq<Event>, n: nat, r: ReqId) returns (i: nat)
    requires IsRun(t, ss, evs) && n <= |evs| && r in ss[n].reqs && ss[n].reqs[r].pc.AtRestore?
    ensures i < n && evs[i] == Remaining(r) && ss[i].now == ss[n].reqs[r].pc.since
    ensures ss[n].reqs[r].pc.remaining == (t.exp - ss[i].now).Floor && t.exp - ss[i].now >= 1.0
  {
    assert n > 0 && StepAt(t, ss, evs, n - 1);
    if evs[n - 1] == Remaining(r) {
      i := n - 1;
    } else {
      i := ComputedAt(t, ss, evs, n - 1, r);
    }
  }

  /** A restored key outlives the token's `exp` if and only if more time passes between computing the
      remaining seconds and setting the key than the truncation had cut off. */
  lemma RestoredKeyOutlives(t: Token, ss: seq<State>, evs: seq<Event>, n: nat, r: ReqId) returns (i: nat)
    requires IsRun(t, ss, evs) && n < |evs| && evs[n] == Restore(r)
    ensures i < n && evs[i] == Remaining(r) && ss[n + 1].key.Some?
    ensures var left := t.exp - ss[i].now; var cut := left - left.Floor as real;
      ss[n + 1].key.value > t.exp <==> ss[n].now - ss[i].now > cut
  {
    assert StepAt(t, ss, evs, n);
    i := ComputedAt(t, ss, evs, n, r);
  }

  /** Whoever took the key decoded the token before its limit, however late the key was taken. */
  lemma HoldersDecodedInTime(t: Token, ss: seq<State>, evs: seq<Event>, n: nat, r: ReqId)
    requires IsRun(t, ss, evs) && n <= |evs| && r in ss[n].reqs && Holds(ss[n].reqs[r].pc)
    ensures ss[n].reqs[r].decodedAt < t.limit
  {
    RunInv(t, ss, evs, n);
  }

  // ---- taking the key after the token has expired -----------------------------------------

  /** Step `m` put the key there with a deadline beyond `exp`: the first key because it was stored
      later than the token was signed, or a restored one because of the delay before it was set. */
  ghost predicate SetsBeyondExp(t: Token, ss: seq<State>, evs: seq<Event>, m: nat)
    requires |ss| == |evs| + 1 && m < |evs|
  {
    || (evs[m].Store? && ss[m].now + evs[m].seconds as real > t.exp)
    || (evs[m].Restore? && exists i :: 0 <= i < m && DelayedBeyondCut(t, ss, evs, i, m))
  }

  /** The remaining seconds were computed at step `i`, and set at step `m` after more time than the
      truncation had cut off. */
  ghost predicate DelayedBeyondCut(t: Token, ss: seq<State>, evs: seq<Event>, i: nat, m: nat)
    requires |ss| == |evs| + 1 && i < m < |evs| && evs[m].Restore?
  {
    var left := t.exp - ss[i].now;
    && evs[i] == Remaining(evs[m].r) && left >= 1.0 && Waiting(ss[m], evs[m].r, left.Floor, ss[i].now)
    && ss[m].now - ss[i].now > left - left.Floor as real
  }

  /** The key of state `n` is the one that step `m` set. */
  ghost predicate KeyIsFrom(ss: seq<State>, evs: seq<Event>, m: nat, n: nat)
    requires |ss| == |evs| + 1 && m < n <= |evs|
  {
    (evs[m].Store? || evs[m].Restore?) && forall k :: m < k <= n ==> ss[k].key == ss[m + 1].key
  }

  lemma {:induction false} KeyWasSet(t: Token, ss: seq<State>, evs: seq<Event>, n: nat) returns (m: nat)
    requires IsRun(t, ss, evs) && n <= |evs| && ss[n].key.Some?
    ensures m < n && KeyIsFrom(ss, evs, m, n)
  {
    assert n > 0 && StepAt(t, ss, evs, n - 1);
    if evs[n - 1].Store? || evs[n - 1].Restore? {
      m := n - 1;
    } else {
      m := KeyWasSet(t, ss, evs, n - 1);
    }
  }

  lemma BeyondExpIff(t: Token, ss: seq<State>, evs: seq<Event>, m: nat)
    requires IsRun(t, ss, evs) && m < |evs| && (evs[m].Store? || evs[m].Restore?)
    ensures ss[m + 1].key.Some? && (ss[m + 1].key.value > t.exp <==> SetsBeyondExp(t, ss, evs, m))
  {
    assert StepAt(t, ss, evs, m);
    if evs[m].Restore? {
      var r := evs[m].r;
      var i := ComputedAt(t, ss, evs, m, r);
      if ss[m + 1].key.value > t.exp {
        assert DelayedBeyondCut(t, ss, evs, i, m);
      }
    }
  }

  /** A request takes the key at or after `exp` if and only if the key that is there was set beyond
      `exp` and has not reached its own deadline; and then it decoded the token before the limit. */
  lemma LateTakeIff(t: Token, ss: seq<State>, evs: seq<Event>, n: nat, r: ReqId)
    requires IsRun(t, ss, evs) && n < |evs| && evs[n] == Take(r, true) && t.exp <= ss[n].now
    ensures At(ss[n + 1], r, AtCheck) <==>
            (exists m :: 0 <= m < n && KeyIsFrom(ss, evs, m, n) && SetsBeyondExp(t, ss, evs, m)) && KeyLives(ss[n])
    ensures At(ss[n + 1], r, AtCheck) ==> r in ss[n].reqs && ss[n].reqs[r].decodedAt < t.limit
  {
    assert StepAt(t, ss, evs, n);
    RunInv(t, ss, evs, n);
    if KeyLives(ss[n]) {
      var m := KeyWasSet(t, ss, evs, n);
      BeyondExpIff(t, ss, evs, m);
    }
  }

  // ---- a key that does outlive its token --------------------------------------------------

  lemma Extended(t: Token, ss: seq<State>, evs: seq<Event>, ev: Event, next: State)
    requires IsRun(t, ss, evs) && Enabled(ss[|evs|], ev) && next == Next(t, ss[|evs|], ev)
    ensures IsRun(t, ss + [next], evs + [ev])
  {
    var ss', evs' := ss + [next], evs + [ev];
    forall i | 0 <= i < |evs'|
      ensures StepAt(t, ss', evs', i)
    {
      if i < |evs| {
        assert StepAt(t, ss, evs, i);
      }
    }
  }

  const TOKEN := Token(10.5, 10.0)

  /** A weak password. */
  lemma WeakPassword() returns (ss: seq<State>, evs: seq<Event>)
    ensures IsRun(TOKEN, ss, evs) && |evs| == 4
    ensures ss[4] == State(0.0, None, true, map[1 := Request(0.0, AtRemaining)], [])
  {
    var t := TOKEN;
    var s0 := State(0.0, None, false, map[], []);
    var s1 := State(0.0, Some(10.0), true, map[], []);
    var s2 := s1.(reqs := map[1 := Request(0.0, AtTake)]);
    var s3 := s2.(key := None, reqs := map[1 := Request(0.0, AtCheck)]);
    var s4 := s3.(reqs := map[1 := Request(0.0, AtRemaining)]);
    assert IsRun(t, [s0], []);
    Extended(t, [s0], [], Store(10), s1);
    Extended(t, [s0] + [s1], [] + [Store(10)], Present(1), s2);
    Extended(t, [s0] + [s1] + [s2], [] + [Store(10)] + [Present(1)], Take(1, true), s3);
    Extended(t, [s0] + [s1] + [s2] + [s3], [] + [Store(10)] + [Present(1)] + [Take(1, true)], Check(1, false), s4);
    ss := [s0] + [s1] + [s2] + [s3] + [s4];
    evs := [] + [Store(10)] + [Present(1)] + [Take(1, true)] + [Check(1, false)];
  }

  /** Then nine tenths of a second pass before the key is set again. */
  lemma KeyRestoredLate() returns (ss: seq<State>, evs: seq<Event>)
    ensures IsRun(TOKEN, ss, evs) && |evs| == 7
    ensures ss[7] == State(0.9, Some(10.9), true, map[1 := Request(0.0, Over)], [])
  {
    ss, evs := WeakPassword();
    var s5 := State(0.0, None, true, map[1 := Request(0.0, AtRestore(10, 0.0))], []);
    var s6 := s5.(now := 0.9);
    var s7 := State(0.9, Some(10.9), true, map[1 := Request(0.0, Over)], []);
    assert 10.5.Floor == 10;
    ss, evs := ThreeMore(TOKEN, ss, evs, Remaining(1), s5, Tick(0.9), s6, Restore(1), s7);
  }

  lemma RestoredKeyCanOutlive() returns (ss: seq<State>, evs: seq<Event>)
    ensures IsRun(TOKEN, ss, evs) && ss[|evs|].key.Some? && ss[|evs|].key.value > TOKEN.exp
  {
    ss, evs := KeyRestoredLate();
  }

  /** And it can be taken: a second request decodes the token in time, takes the restored key after
      `exp`, and writes its password. */
  lemma PasswordWrittenAfterExp() returns (ss: seq<State>, evs: seq<Event>, n: nat)
    ensures IsRun(TOKEN, ss, evs) && n < |evs| && evs[n] == Take(2, true) && ss[n].now > TOKEN.exp
    ensures ss[|evs|].writes == [2]
  {
    var t := TOKEN;
    ss, evs := KeyRestoredLate();
    var s7 := ss[7];
    var s8 := s7.(now := 9.9);
    var s9 := s8.(reqs := s7.reqs[2 := Request(9.9, AtTake)]);
    var s10 := s9.(now := 10.6);
    ss, evs := ThreeMore(t, ss, evs, Tick(9.9), s8, Present(2), s9, Tick(10.6), s10);
    n := |evs|;
    var s11 := s10.(key := None, reqs := s10.reqs[2 := Request(9.9, AtCheck)]);
    var s12 := s11.(reqs := s10.reqs[2 := Request(9.9, AtWrite)]);
    var s13 := s12.(reqs := s10.reqs[2 := Request(9.9, AtRevoke)], writes := [2]);
    assert s11.reqs[2 := Request(9.9, AtWrite)] == s12.reqs && s12.reqs[2 := Request(9.9, AtRevoke)] == s13.reqs;
    assert [] + [2] == [2];
    ss, evs := ThreeMore(t, ss, evs, Take(2, true), s11, Check(2, true), s12, Write(2, Updated), s13);
  }

  lemma ThreeMore(t: Token, ss: seq<State>, evs: seq<Event>, e1: Event, s1: State, e2: Event, s2: State, e3: Event,
      s3: State)
    returns (ss': seq<State>, evs': seq<Event>)
    requires IsRun(t, ss, evs)
    requires Enabled(ss[|evs|], e1) && s1 == Next(t, ss[|evs|], e1)
    requires Enabled(s1, e2) && s2 == Next(t, s1, e2)
    requires Enabled(s2, e3) && s3 == Next(t, s2, e3)
    ensures IsRun(t, ss', evs') && ss' == ss + [s1, s2, s3] && evs' == evs + [e1, e2, e3]
  {
    hide Next, Enabled;
    Extended(t, ss, evs, e1, s1);
    Extended(t, ss + [s1], evs + [e1], e2, s2);
    Extended(t, ss + [s1] + [s2], evs + [e1] + [e2], e3, s3);
    ss', evs' := ss + [s1] + [s2] + [s3], evs + [e1] + [e2] + [e3];
  }
}
