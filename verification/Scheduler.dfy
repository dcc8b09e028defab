/** The scheduler: a global semaphore, a semaphore per host, and a spacing between requests to one host. */
module Scheduler {
  import opened Prelude

  /** Where one call of `acquire` stands. A caller that waits out the spacing holds the mutex of its host. */
  datatype Phase = WantGlobal | WantHost | HasHost | WantLock | Sleeping(until: int) | Holding | Gone

  datatype Caller = Caller(host: string, delay: nat, phase: Phase)

  /** A permit given out to a caller after the spacing was enforced. */
  datatype Grant = Grant(caller: nat, host: string, delay: nat, time: int)

  datatype Config = Config(maxGlobal: nat, maxPerHost: nat)

  /** A host that is not in `hostFree` has a full semaphore that is yet to be created. */
  datatype State = State(
    now: int,
    globalFree: int,
    hostFree: map<string, int>,
    last: map<string, int>,
    locked: set<string>,
    callers: seq<Caller>,
    grants: seq<Grant>)

  datatype Move = TakeGlobal | TakeHost | Register | Lock | Wake | Leave

  function GlobalPermits(k: Config): int { Max(k.maxGlobal, 1) }

  function HostPermits(k: Config): int { Max(k.maxPerHost, 1) }

  function Free(k: Config, s: State, h: string): int {
    if h in s.hostFree then s.hostFree[h] else HostPermits(k)
  }

  predicate HoldsGlobal(c: Caller) { !c.phase.WantGlobal? && !c.phase.Gone? }

  predicate HoldsHost(c: Caller) { HoldsGlobal(c) && !c.phase.WantHost? }

  predicate Pending(c: Caller) { !c.phase.Holding? && !c.phase.Gone? }

  predicate Enabled(k: Config, s: State, i: nat, move: Move) {
    && i < |s.callers|
    && var c := s.callers[i];
    match move
    case TakeGlobal => c.phase.WantGlobal? && s.globalFree > 0
    case TakeHost => c.phase.WantHost? && Free(k, s, c.host) > 0
    case Register => c.phase.HasHost?
    case Lock => c.phase.WantLock? && c.host !in s.locked && c.host in s.last
    case Wake => c.phase.Sleeping? && c.phase.until <= s.now
    case Leave => !c.phase.Gone?
  }

  function Moved(s: State, i: nat, phase: Phase): seq<Caller>
    requires i < |s.callers|
  {
    s.callers[i := s.callers[i].(phase := phase)]
  }

  /**
   One atomic step of one caller. A caller without a delay has its permit as soon as it has both semaphores;
   any other registers the host's last request, as if one had been made just long enough ago if there was none.
   Leaving is dropping the permit, or giving up while waiting; whatever is held is returned.
   */
  function After(k: Config, s: State, i: nat, move: Move): State
    requires Enabled(k, s, i, move)
  {
    var c := s.callers[i];
    match move
    case TakeGlobal => s.(globalFree := s.globalFree - 1, callers := Moved(s, i, WantHost))
    case TakeHost => s.(hostFree := s.hostFree[c.host := Free(k, s, c.host) - 1], callers := Moved(s, i, HasHost))
    case Register =>
      if c.delay == 0 then s.(callers := Moved(s, i, Holding))
      else
        s.(last := if c.host in s.last then s.last else s.last[c.host := s.now - c.delay],
           callers := Moved(s, i, WantLock))
    case Lock =>
      s.(locked := s.locked + {c.host}, callers := Moved(s, i, Sleeping(Max(s.now, s.last[c.host] + c.delay))))
    case Wake =>
      s.(last := s.last[c.host := s.now], locked := s.locked - {c.host}, callers := Moved(s, i, Holding),
         grants := s.grants + [Grant(i, c.host, c.delay, s.now)])
    case Leave =>
      s.(globalFree := if HoldsGlobal(c) then s.globalFree + 1 else s.globalFree,
         hostFree := if HoldsHost(c) then s.hostFree[c.host := Free(k, s, c.host) + 1] else s.hostFree,
         locked := if c.phase.Sleeping? then s.locked - {c.host} else s.locked,
         callers := Moved(s, i, Gone))
  }

  function Arrived(s: State, host: string, delay: nat): State {
    s.(callers := s.callers + [Caller(host, delay, WantGlobal)])
  }

  function Later(s: State, ticks: nat): State { s.(now := s.now + ticks) }

  ghost predicate Step(k: Config, s: State, t: State) {
    || (exists i, move :: Enabled(k, s, i, move) && t == After(k, s, i, move))
    || (exists host, delay :: t == Arrived(s, host, delay))
    || (exists ticks :: t == Later(s, ticks))
  }

  function Start(k: Config, now: int): State { State(now, GlobalPermits(k), map[], map[], {}, [], []) }

  /** A run is a sequence of states, each one step after the one before. */
  ghost predicate Run(k: Config, run: seq<State>) {
    && run != []
    && run[0] == Start(k, run[0].now)
    && forall j :: 0 < j < |run| ==> Step(k, run[j - 1], run[j])
  }

  // ---- Permits are conserved ----

  function GlobalWeight(): Caller -> int { (c: Caller) => if HoldsGlobal(c) then 1 else 0 }

  function HostWeight(h: string): Caller -> int { (c: Caller) => if HoldsHost(c) && c.host == h then 1 else 0 }

  function SleepWeight(h: string): Caller -> int { (c: Caller) => if c.phase.Sleeping? && c.host == h then 1 else 0 }

  ghost predicate GlobalConserved(k: Config, s: State) {
    s.globalFree >= 0 && s.globalFree + Sum(s.callers, GlobalWeight()) == GlobalPermits(k)
  }

  ghost predicate HostConserved(k: Config, s: State, h: string) {
    Free(k, s, h) >= 0 && Free(k, s, h) + Sum(s.callers, HostWeight(h)) == HostPermits(k)
  }

  /** A host's mutex is held by its one sleeping caller. */
  ghost predicate LockHeld(s: State, h: string) {
    Sum(s.callers, SleepWeight(h)) == if h in s.locked then 1 else 0
  }

  lemma MoveConservesGlobal(k: Config, s: State, i: nat, move: Move)
    requires Enabled(k, s, i, move) && GlobalConserved(k, s)
    ensures GlobalConserved(k, After(k, s, i, move))
  {
    var t := After(k, s, i, move);
    SumUpdate(s.callers, i, t.callers[i], GlobalWeight());
    assert t.callers == s.callers[i := t.callers[i]];
    hide Sum;
  }

  lemma MoveConservesHost(k: Config, s: State, i: nat, move: Move, h: string)
    requires Enabled(k, s, i, move) && HostConserved(k, s, h)
    ensures HostConserved(k, After(k, s, i, move), h)
  {
    var t := After(k, s, i, move);
    SumUpdate(s.callers, i, t.callers[i], HostWeight(h));
    assert t.callers == s.callers[i := t.callers[i]];
    hide Sum, GlobalWeight, SleepWeight;
  }

  lemma MoveKeepsLock(k: Config, s: State, i: nat, move: Move, h: string)
    requires Enabled(k, s, i, move) && LockHeld(s, h)
    ensures LockHeld(After(k, s, i, move), h)
  {
    var t := After(k, s, i, move);
    SumUpdate(s.callers, i, t.callers[i], SleepWeight(h));
    assert t.callers == s.callers[i := t.callers[i]];
    if s.callers[i].phase.Sleeping? && s.callers[i].host == h {
      forall j | 0 <= j < |s.callers| ensures 0 <= SleepWeight(h)(s.callers[j]) <= 1 {}
      SumAtLeastOne(s.callers, SleepWeight(h), i);
    }
    hide Sum, GlobalWeight, HostWeight, Free, HoldsHost, HoldsGlobal;
  }

  lemma ArrivalWeighsNothing(s: State, host: string, delay: nat, f: Caller -> int)
    requires f(Caller(host, delay, WantGlobal)) == 0
    ensures Sum(Arrived(s, host, delay).callers, f) == Sum(s.callers, f)
  {
    var more := Arrived(s, host, delay).callers;
    assert more[..|more| - 1] == s.callers;
  }

  // ---- Spacing ----

  /** Grants to one host are apart by at least the later caller's delay. */
  ghost predicate Spaced(grants: seq<Grant>) {
    forall i, j :: 0 <= i < j < |grants| && grants[i].host == grants[j].host ==>
      grants[j].time >= grants[i].time + grants[j].delay
  }

  ghost predicate LastIsLatest(s: State) {
    && (forall h <- s.last :: s.last[h] <= s.now)
    && (forall g <- s.grants :: g.host in s.last && g.time <= s.last[g.host])
  }

  /**
   A caller waiting for, or holding, a host's mutex has a delay and a registered host; a sleeper sleeps long enough.
   */
  ghost predicate Waits(s: State, c: Caller) {
    && (c.phase.WantLock? ==> c.host in s.last && c.delay > 0)
    && (c.phase.Sleeping? ==> c.host in s.last && c.delay > 0 && c.phase.until >= s.last[c.host] + c.delay)
  }

  ghost predicate AllWait(s: State) { forall c <- s.callers :: Waits(s, c) }

  lemma MoveKeepsSpacing(k: Config, s: State, i: nat, move: Move)
    requires Enabled(k, s, i, move) && Spaced(s.grants) && LastIsLatest(s) && AllWait(s)
    ensures Spaced(After(k, s, i, move).grants) && LastIsLatest(After(k, s, i, move))
  {
    hide Free, HoldsGlobal, HoldsHost;
    var c := s.callers[i];
    assert Waits(s, c);
  }

  /** No one else sleeps on the host while its last request is rewritten. */
  lemma MoveKeepsWaits(k: Config, s: State, i: nat, move: Move)
    requires Enabled(k, s, i, move) && AllWait(s) && LockHeld(s, s.callers[i].host)
    ensures AllWait(After(k, s, i, move))
  {
    var t, h := After(k, s, i, move), s.callers[i].host;
    forall j | 0 <= j < |t.callers| ensures Waits(t, t.callers[j]) {
      assert Waits(s, s.callers[j]) && Waits(s, s.callers[i]);
      if j != i && move == Wake && s.callers[j].host == h && s.callers[j].phase.Sleeping? {
        OneSleeper(s, h, i, j);
      }
      hide Free, HoldsGlobal, HoldsHost, AllWait, LockHeld;
    }
  }

  lemma {:induction false} OneSleeper(s: State, h: string, i: nat, j: nat)
    requires LockHeld(s, h) && i < |s.callers| && j < |s.callers|
    requires s.callers[i].phase.Sleeping? && s.callers[j].phase.Sleeping? && s.callers[i].host == s.callers[j].host == h
    ensures i == j
  {
    if i != j {
      SumOfTwo(s.callers, SleepWeight(h), Min(i, j), Max(i, j));
    }
  }

  lemma {:induction false} SumOfTwo(xs: seq<Caller>, f: Caller -> int, i: nat, j: nat)
    requires i < j < |xs| && forall n :: 0 <= n < |xs| ==> 0 <= f(xs[n]) <= 1
    ensures f(xs[i]) + f(xs[j]) <= Sum(xs, f)
  {
    var init := xs[..|xs| - 1];
    if j == |xs| - 1 {
      SumAtLeastOne(init, f, i);
    } else {
      SumOfTwo(init, f, i, j);
      SumIndicator(xs[..|xs| - 1], f);
    }
  }

  // ---- Who waits, and what for ----

  /** The grants are those of callers that have got their permit, one each, and every such caller has one. */
  ghost predicate GrantsMatch(s: State) {
    && (forall g <- s.grants :: GrantedTo(s, g))
    && (forall a, b :: 0 <= a < b < |s.grants| ==> s.grants[a].caller != s.grants[b].caller)
    && (forall i :: 0 <= i < |s.callers| && s.callers[i].phase.Holding? && s.callers[i].delay > 0 ==> HasGrant(s, i))
  }

  ghost predicate GrantedTo(s: State, g: Grant) {
    && g.caller < |s.callers|
    && var c := s.callers[g.caller];
    c.host == g.host && c.delay == g.delay && c.delay > 0 && (c.phase.Holding? || c.phase.Gone?)
  }

  ghost predicate HasGrant(s: State, i: nat) { exists g <- s.grants :: g.caller == i }

  lemma MoveKeepsGrants(k: Config, s: State, i: nat, move: Move)
    requires Enabled(k, s, i, move) && GrantsMatch(s) && Waits(s, s.callers[i])
    ensures GrantsMatch(After(k, s, i, move))
  {
    hide Free, HoldsGlobal, HoldsHost;
    var t := After(k, s, i, move);
    forall g | g in t.grants ensures GrantedTo(t, g) {
      if g in s.grants { assert GrantedTo(s, g); }
    }
    assert forall g <- s.grants :: GrantedTo(s, g) && g in t.grants;
    forall a, b | 0 <= a < b < |t.grants| ensures t.grants[a].caller != t.grants[b].caller {
      assert t.grants[a] in s.grants && GrantedTo(s, t.grants[a]);
    }
    forall j | 0 <= j < |t.callers| && t.callers[j].phase.Holding? && t.callers[j].delay > 0 ensures HasGrant(t, j) {
      if j == i && move == Wake {
        assert t.grants[|s.grants|].caller == i && t.grants[|s.grants|] in t.grants;
      } else {
        assert HasGrant(s, j);
      }
    }
  }

  /** The request is spaced from an earlier grant. */
  ghost predicate FromGrant(s: State, host: string, time: int) {
    exists g <- s.grants :: g.host == host && g.time == time
  }

  /** Someone with this delay, long enough ago, was the first to register the host. */
  ghost predicate FromRegistration(s: State, host: string, time: int) {
    exists c <- s.callers :: c.host == host && time + c.delay <= s.now
  }

  /** Someone who calls for the same host asks for a shorter delay. */
  ghost predicate ShorterDelay(s: State, c: Caller) {
    exists other <- s.callers :: other.host == c.host && other.delay < c.delay
  }

  ghost predicate LastExplained(s: State) {
    forall h <- s.last :: FromGrant(s, h, s.last[h]) || FromRegistration(s, h, s.last[h])
  }

  ghost predicate WaitExplained(s: State, c: Caller) {
    c.phase.Sleeping? && c.phase.until > s.now ==> FromGrant(s, c.host, c.phase.until - c.delay) || ShorterDelay(s, c)
  }

  ghost predicate WaitsExplained(s: State) { forall c <- s.callers :: WaitExplained(s, c) }

  /** Callers keep their host and delay, grants stay, and time does not go back. */
  ghost predicate Continues(s: State, t: State) {
    && s.now <= t.now && s.grants <= t.grants
    && |s.callers| <= |t.callers|
    && forall i :: 0 <= i < |s.callers| ==>
         t.callers[i].host == s.callers[i].host && t.callers[i].delay == s.callers[i].delay
  }

  lemma MoveContinues(k: Config, s: State, i: nat, move: Move)
    requires Enabled(k, s, i, move)
    ensures Continues(s, After(k, s, i, move))
  {
    hide Free, HoldsGlobal, HoldsHost;
  }

  lemma ExplanationsStay(s: State, t: State, host: string, time: int, c: Caller)
    requires Continues(s, t)
    ensures FromGrant(s, host, time) ==> FromGrant(t, host, time)
    ensures FromRegistration(s, host, time) ==> FromRegistration(t, host, time)
    ensures ShorterDelay(s, c) ==> ShorterDelay(t, c)
  {
    if FromRegistration(s, host, time) {
      var i :| 0 <= i < |s.callers| && s.callers[i].host == host && time + s.callers[i].delay <= s.now;
      assert t.callers[i] in t.callers;
    }
    if ShorterDelay(s, c) {
      var i :| 0 <= i < |s.callers| && s.callers[i].host == c.host && s.callers[i].delay < c.delay;
      assert t.callers[i] in t.callers;
    }
  }

  lemma MoveKeepsLast(k: Config, s: State, i: nat, move: Move)
    requires Enabled(k, s, i, move) && LastExplained(s)
    ensures LastExplained(After(k, s, i, move))
  {
    var t, c := After(k, s, i, move), s.callers[i];
    MoveContinues(k, s, i, move);
    hide Free, HoldsGlobal, HoldsHost, Continues;
    forall h | h in t.last ensures FromGrant(t, h, t.last[h]) || FromRegistration(t, h, t.last[h]) {
      if h in s.last && t.last[h] == s.last[h] {
        hide FromGrant, FromRegistration, After, Enabled;
        ExplanationsStay(s, t, h, s.last[h], c);
      } else if move == Wake {
        assert t.grants[|s.grants|] in t.grants;
      } else {
        assert t.callers[i] in t.callers;
      }
    }
  }

  /** Whoever has to wait when he gets the mutex has a reason to. */
  lemma LockExplained(k: Config, s: State, i: nat)
    requires Enabled(k, s, i, Lock) && LastExplained(s)
    ensures WaitExplained(s, After(k, s, i, Lock).callers[i])
  {
    var c := s.callers[i];
    hide Free, HoldsGlobal, HoldsHost;
    assert FromGrant(s, c.host, s.last[c.host]) || FromRegistration(s, c.host, s.last[c.host]);
  }

  lemma MoveKeepsReasons(k: Config, s: State, i: nat, move: Move)
    requires Enabled(k, s, i, move) && LastExplained(s) && WaitsExplained(s)
    ensures WaitsExplained(After(k, s, i, move))
  {
    var t := After(k, s, i, move);
    MoveContinues(k, s, i, move);
    if move == Lock { LockExplained(k, s, i); }
    forall j | 0 <= j < |t.callers| ensures WaitExplained(t, t.callers[j]) {
      var c := t.callers[j];
      assert WaitExplained(s, s.callers[j]);
      assert c.phase.Sleeping? ==> WaitExplained(s, c);
      hide Free, HoldsGlobal, HoldsHost, FromGrant, ShorterDelay, Continues;
      if c.phase.Sleeping? { ExplanationsStay(s, t, c.host, c.phase.until - c.delay, c); }
    }
  }

  /** What the grants and the waits keep when nobody moves. */
  lemma OthersKeepReasons(s: State, t: State)
    requires Continues(s, t) && t.grants == s.grants && t.last == s.last
    requires t.callers[..|s.callers|] == s.callers
    requires forall c <- t.callers[|s.callers|..] :: c.phase.WantGlobal?
    requires GrantsMatch(s) && LastExplained(s) && WaitsExplained(s)
    ensures GrantsMatch(t) && LastExplained(t) && WaitsExplained(t)
  {
    forall i | 0 <= i < |t.callers| ensures i < |s.callers| ==> t.callers[i] == s.callers[i]
      ensures i >= |s.callers| ==> t.callers[i].phase.WantGlobal?
    {
      if i >= |s.callers| { assert t.callers[i] == t.callers[|s.callers|..][i - |s.callers|]; }
      if i < |s.callers| { assert t.callers[i] == t.callers[..|s.callers|][i]; }
    }
    assert GrantsMatch(t) by {
      forall g | g in t.grants ensures GrantedTo(t, g) { assert GrantedTo(s, g); }
      forall i | 0 <= i < |t.callers| && t.callers[i].phase.Holding? && t.callers[i].delay > 0 ensures HasGrant(t, i) {
        assert HasGrant(s, i);
      }
    }
    hide GrantsMatch, GrantedTo, FromGrant, FromRegistration, ShorterDelay, Continues;
    forall h | h in t.last ensures FromGrant(t, h, t.last[h]) || FromRegistration(t, h, t.last[h]) {
      ExplanationsStay(s, t, h, t.last[h], Caller(h, 0, WantGlobal));
    }
    forall i | 0 <= i < |t.callers| ensures WaitExplained(t, t.callers[i]) {
      var c := t.callers[i];
      if c.phase.Sleeping? {
        assert WaitExplained(s, s.callers[i]);
        assert s.now <= t.now by { NotBefore(s, t); }
        ExplanationsStay(s, t, c.host, c.phase.until - c.delay, c);
      }
    }
  }

  lemma NotBefore(s: State, t: State)
    requires Continues(s, t)
    ensures s.now <= t.now
  {
  }

  // ---- Every reachable state ----

  ghost predicate Invariant(k: Config, s: State) {
    && GlobalConserved(k, s)
    && (forall h :: HostConserved(k, s, h))
    && (forall h :: LockHeld(s, h))
    && Spaced(s.grants)
    && LastIsLatest(s)
    && AllWait(s)
    && GrantsMatch(s)
    && LastExplained(s)
    && WaitsExplained(s)
  }

  lemma MoveKeepsInvariant(k: Config, s: State, i: nat, move: Move)
    requires Invariant(k, s) && Enabled(k, s, i, move)
    ensures Invariant(k, After(k, s, i, move))
  {
    hide GlobalConserved, HostConserved, LockHeld, Spaced, LastIsLatest, AllWait, Enabled, After;
    hide GrantsMatch, LastExplained, WaitsExplained;
    MoveConservesGlobal(k, s, i, move);
    MoveKeepsSpacing(k, s, i, move);
    assert i < |s.callers| by { EnabledIndex(k, s, i, move); }
    CallerWaits(s, i);
    MoveKeepsGrants(k, s, i, move);
    MoveKeepsLast(k, s, i, move);
    MoveKeepsReasons(k, s, i, move);
    MoveKeepsWaits(k, s, i, move);
    forall h ensures HostConserved(k, After(k, s, i, move), h) && LockHeld(After(k, s, i, move), h) {
      MoveConservesHost(k, s, i, move, h);
      MoveKeepsLock(k, s, i, move, h);
    }
  }

  lemma CallerWaits(s: State, i: nat)
    requires AllWait(s) && i < |s.callers|
    ensures Waits(s, s.callers[i])
  {
    hide Waits;
  }

  lemma EnabledIndex(k: Config, s: State, i: nat, move: Move)
    requires Enabled(k, s, i, move)
    ensures i < |s.callers|
  {
  }

  lemma ArrivalKeepsInvariant(k: Config, s: State, host: string, delay: nat)
    requires Invariant(k, s)
    ensures Invariant(k, Arrived(s, host, delay))
  {
    var t := Arrived(s, host, delay);
    ArrivalWeighsNothing(s, host, delay, GlobalWeight());
    forall h ensures HostConserved(k, t, h) && LockHeld(t, h) {
      assert HostConserved(k, s, h) && LockHeld(s, h);
      ArrivalWeighsNothing(s, host, delay, HostWeight(h));
      ArrivalWeighsNothing(s, host, delay, SleepWeight(h));
      hide Sum, Spaced, AllWait, LastIsLatest, GrantsMatch, LastExplained, WaitsExplained;
    }
    OthersKeepReasons(s, t);
    hide Sum, HostConserved, LockHeld, GrantsMatch, LastExplained, WaitsExplained;
  }

  lemma TimeKeepsInvariant(k: Config, s: State, ticks: nat)
    requires Invariant(k, s)
    ensures Invariant(k, Later(s, ticks))
  {
    var t := Later(s, ticks);
    OthersKeepReasons(s, t);
    hide GrantsMatch, LastExplained, WaitsExplained;
    forall h ensures HostConserved(k, t, h) && LockHeld(t, h) {
      assert HostConserved(k, s, h) && LockHeld(s, h);
    }
    hide Sum, HostConserved, LockHeld;
  }

  lemma StepKeepsInvariant(k: Config, s: State, t: State)
    requires Invariant(k, s) && Step(k, s, t)
    ensures Invariant(k, t)
  {
    hide Invariant, After, Enabled;
    if i, move :| Enabled(k, s, i, move) && t == After(k, s, i, move) {
      MoveKeepsInvariant(k, s, i, move);
    } else if host, delay :| t == Arrived(s, host, delay) {
      ArrivalKeepsInvariant(k, s, host, delay);
    } else {
      var ticks :| t == Later(s, ticks);
      TimeKeepsInvariant(k, s, ticks);
    }
  }

  lemma {:induction false} RunInvariant(k: Config, run: seq<State>, j: nat)
    requires Run(k, run) && j < |run|
    ensures Invariant(k, run[j])
  {
    if j > 0 {
      RunInvariant(k, run, j - 1);
      hide Invariant;
      StepKeepsInvariant(k, run[j - 1], run[j]);
    }
  }

  // ---- What every run guarantees ----

  /** The callers that hold a global permit, and those that hold one of a host. */
  ghost function GlobalHolders(s: State): set<int> { set i | 0 <= i < |s.callers| && HoldsGlobal(s.callers[i]) }

  ghost function HostHolders(s: State, h: string): set<int> {
    set i | 0 <= i < |s.callers| && HoldsHost(s.callers[i]) && s.callers[i].host == h
  }

  /** In every run the permits held never exceed the configured numbers, where zero counts as one. */
  lemma PermitsBounded(k: Config, run: seq<State>, j: nat, h: string)
    requires Run(k, run) && j < |run|
    ensures |GlobalHolders(run[j])| <= Max(k.maxGlobal, 1)
    ensures |HostHolders(run[j], h)| <= Max(k.maxPerHost, 1)
  {
    RunInvariant(k, run, j);
    assert GlobalConserved(k, run[j]) && HostConserved(k, run[j], h);
    hide Run, Invariant;
    var s := run[j];
    SumIsCount(s.callers, GlobalWeight());
    SumIsCount(s.callers, HostWeight(h));
    hide Sum, Picked;
    assert GlobalHolders(s) == Picked(s.callers, GlobalWeight());
    assert HostHolders(s, h) == Picked(s.callers, HostWeight(h));
  }

  /** In every run a permit is free for the taking as long as fewer than the configured numbers are held. */
  lemma PermitsAvailable(k: Config, run: seq<State>, j: nat, i: nat)
    requires Run(k, run) && j < |run| && i < |run[j].callers|
    ensures var s, c := run[j], run[j].callers[i];
      && (c.phase.WantGlobal? ==> (Enabled(k, s, i, TakeGlobal) <==> |GlobalHolders(s)| < Max(k.maxGlobal, 1)))
      && (c.phase.WantHost? ==> (Enabled(k, s, i, TakeHost) <==> |HostHolders(s, c.host)| < Max(k.maxPerHost, 1)))
  {
    var s, h := run[j], run[j].callers[i].host;
    RunInvariant(k, run, j);
    assert GlobalConserved(k, run[j]) && HostConserved(k, run[j], h);
    hide Run, Invariant;
    SumIsCount(s.callers, GlobalWeight());
    SumIsCount(s.callers, HostWeight(h));
    hide Sum, Picked;
    assert GlobalHolders(s) == Picked(s.callers, GlobalWeight());
    assert HostHolders(s, h) == Picked(s.callers, HostWeight(h));
  }

  /** In every run a caller that holds its permit, and asked for a delay, has its own grant. */
  lemma HoldersAreGranted(k: Config, run: seq<State>, j: nat, i: nat)
    requires Run(k, run) && j < |run| && i < |run[j].callers|
    requires run[j].callers[i].phase.Holding? && run[j].callers[i].delay > 0
    ensures exists a :: 0 <= a < |run[j].grants| && var g, c := run[j].grants[a], run[j].callers[i];
      g.caller == i && g.host == c.host && g.delay == c.delay
    ensures forall a, b :: 0 <= a < b < |run[j].grants| ==> run[j].grants[a].caller != run[j].grants[b].caller
  {
    RunInvariant(k, run, j);
    var s := run[j];
    hide Run, GlobalConserved, HostConserved, LockHeld, Spaced, LastIsLatest, AllWait, LastExplained, WaitsExplained;
    assert HasGrant(s, i);
    var a :| 0 <= a < |s.grants| && s.grants[a].caller == i;
    assert GrantedTo(s, s.grants[a]);
  }

  /**
   In every run nobody sleeps without need: not without a delay, and never longer than to keep the delay from an
   earlier grant on the host, unless someone who calls for the host asks for a shorter delay.
   */
  lemma NoNeedlessWait(k: Config, run: seq<State>, j: nat, i: nat)
    requires Run(k, run) && j < |run| && i < |run[j].callers| && run[j].callers[i].phase.Sleeping?
    ensures var s, c := run[j], run[j].callers[i];
      && c.delay > 0
      && (c.phase.until > s.now ==>
            || (exists g <- s.grants :: g.host == c.host && c.phase.until == g.time + c.delay)
            || exists other <- s.callers :: other.host == c.host && other.delay < c.delay)
  {
    RunInvariant(k, run, j);
    hide Run, GlobalConserved, HostConserved, LockHeld, Spaced, LastIsLatest, GrantsMatch, LastExplained;
    assert Waits(run[j], run[j].callers[i]);
    assert WaitExplained(run[j], run[j].callers[i]);
  }

  /** In every run, of two grants to one host the later comes at least its own delay after the earlier. */
  lemma GrantsSpaced(k: Config, run: seq<State>, j: nat, a: nat, b: nat)
    requires Run(k, run) && j < |run| && a < b < |run[j].grants|
    requires run[j].grants[a].host == run[j].grants[b].host
    ensures run[j].grants[b].time - run[j].grants[a].time >= run[j].grants[b].delay
  {
    RunInvariant(k, run, j);
    hide Run, GlobalConserved, HostConserved, LockHeld;
  }

  /** The caller can take its next step towards its permit, or give the permit back, now or after some time. */
  ghost predicate CanProceed(k: Config, s: State, i: nat, move: Move, ticks: nat) {
    Enabled(k, Later(s, ticks), i, move) && (move == Leave ==> s.callers[i].phase.Holding?)
  }

  /** Whoever holds a host permit can proceed, or someone else can. */
  lemma HostHolderProceeds(k: Config, s: State, i: nat) returns (n: nat, move: Move, ticks: nat)
    requires AllWait(s) && i < |s.callers| && HoldsHost(s.callers[i]) && LockHeld(s, s.callers[i].host)
    ensures CanProceed(k, s, n, move, ticks)
  {
    var c := s.callers[i];
    assert Waits(s, c);
    n, ticks := i, 0;
    hide Free, AllWait;
    match c.phase
    case HasHost => move := Register;
    case Sleeping(until) =>
      move := Wake;
      ticks := Max(until - s.now, 0);
    case Holding => move := Leave;
    case WantLock =>
      if c.host !in s.locked {
        move := Lock;
      } else {
        var f := SleepWeight(c.host);
        SumIndicator(s.callers, f);
        n :| 0 <= n < |s.callers| && f(s.callers[n]) == 1;
        move := Wake;
        ticks := Max(s.callers[n].phase.until - s.now, 0);
      }
  }

  lemma GlobalHolderProceeds(k: Config, s: State, i: nat) returns (n: nat, move: Move, ticks: nat)
    requires AllWait(s) && i < |s.callers| && HoldsGlobal(s.callers[i])
    requires HostConserved(k, s, s.callers[i].host) && LockHeld(s, s.callers[i].host)
    ensures CanProceed(k, s, n, move, ticks)
  {
    var c := s.callers[i];
    if HoldsHost(c) {
      n, move, ticks := HostHolderProceeds(k, s, i);
    } else if Free(k, s, c.host) > 0 {
      n, move, ticks := i, TakeHost, 0;
    } else {
      var f := HostWeight(c.host);
      SumIndicator(s.callers, f);
      var holder :| 0 <= holder < |s.callers| && f(s.callers[holder]) == 1;
      hide Free, AllWait, Sum, CanProceed;
      n, move, ticks := HostHolderProceeds(k, s, holder);
    }
  }

  /** As long as someone is waiting, someone can proceed: the locks are taken in one order by everybody. */
  lemma NoDeadlock(k: Config, s: State, i: nat) returns (n: nat, move: Move, ticks: nat)
    requires Invariant(k, s) && i < |s.callers| && Pending(s.callers[i])
    ensures CanProceed(k, s, n, move, ticks)
  {
    assert forall h :: HostConserved(k, s, h) && LockHeld(s, h);
    assert GlobalConserved(k, s) && AllWait(s);
    hide Invariant, AllWait, HostConserved, LockHeld;
    if !s.callers[i].phase.WantGlobal? {
      hide CanProceed, Free;
      n, move, ticks := GlobalHolderProceeds(k, s, i);
    } else if s.globalFree > 0 {
      n, move, ticks := i, TakeGlobal, 0;
    } else {
      SumIndicator(s.callers, GlobalWeight());
      var holder :| 0 <= holder < |s.callers| && GlobalWeight()(s.callers[holder]) == 1;
      hide CanProceed, Free, Sum;
      n, move, ticks := GlobalHolderProceeds(k, s, holder);
    }
  }

  // ---- Everyone who waits can be served ----

  function PhaseRank(p: Phase): nat {
    match p
    case WantGlobal => 6
    case WantHost => 5
    case HasHost => 4
    case WantLock => 3
    case Sleeping(_) => 2
    case Holding => 1
    case Gone => 0
  }

  function RankWeight(): Caller -> int { (c: Caller) => PhaseRank(c.phase) }

  function Rank(s: State): int { Sum(s.callers, RankWeight()) }

  /** Every step of a caller brings it strictly closer to being done. */
  lemma MoveLowersRank(k: Config, s: State, i: nat, move: Move)
    requires Enabled(k, s, i, move)
    ensures Rank(After(k, s, i, move)) < Rank(s)
  {
    var t := After(k, s, i, move);
    SumUpdate(s.callers, i, t.callers[i], RankWeight());
    assert t.callers == s.callers[i := t.callers[i]];
    hide Sum, Free;
  }

  lemma {:induction false} RankNotNegative(xs: seq<Caller>)
    ensures Sum(xs, RankWeight()) >= 0
  {
    if xs != [] { RankNotNegative(xs[..|xs| - 1]); }
  }

  /** A step on which nobody gives up waiting, and nobody new arrives. */
  ghost predicate Patient(k: Config, s: State, t: State) {
    || (exists i: nat, move ::
          && Enabled(k, s, i, move)
          && (move == Leave ==> s.callers[i].phase.Holding?)
          && t == After(k, s, i, move))
    || (exists ticks :: t == Later(s, ticks))
  }

  ghost predicate PatientPath(k: Config, path: seq<State>, s: State) {
    && path != [] && path[0] == s
    && forall j :: 0 < j < |path| ==> Patient(k, path[j - 1], path[j])
  }

  lemma PathConcat(k: Config, s: State, t: State, u: State, rest: seq<State>)
    requires Patient(k, s, t) && Patient(k, t, u) && PatientPath(k, rest, u)
    ensures PatientPath(k, [s, t] + rest, s)
  {
    hide Patient;
    var path := [s, t] + rest;
    forall j | 0 < j < |path| ensures Patient(k, path[j - 1], path[j]) {
      if j > 2 { assert path[j - 1] == rest[j - 3] && path[j] == rest[j - 2]; }
    }
  }

  /** From every reachable state, patience serves everybody: some run without new arrivals ends with nobody waiting. */
  lemma {:induction false} EveryoneServed(k: Config, s: State) returns (path: seq<State>)
    requires Invariant(k, s)
    ensures PatientPath(k, path, s)
    ensures forall c <- path[|path| - 1].callers :: !Pending(c)
    decreases Rank(s)
  {
    if i :| 0 <= i < |s.callers| && Pending(s.callers[i]) {
      var n, move, ticks := NoDeadlock(k, s, i);
      var t := Later(s, ticks);
      TimeKeepsInvariant(k, s, ticks);
      MoveKeepsInvariant(k, t, n, move);
      MoveLowersRank(k, t, n, move);
      RankNotNegative(s.callers);
      hide Invariant, After, Enabled;
      var rest := EveryoneServed(k, After(k, t, n, move));
      assert Patient(k, s, t);
      assert Patient(k, t, After(k, t, n, move));
      hide Patient;
      PathConcat(k, s, t, After(k, t, n, move), rest);
      path := [s, t] + rest;
    } else {
      path := [s];
    }
  }
}
