/** delegated.Service.walletParams: the verification ceilings, cached under a lock that is held
    across the query. */
module WalletParams {
  import opened Prelude
  import opened Verification

  const PARAMS_CACHE_TTL: int := 60

  datatype Fetched = Fetched(params: Params, at: int)

  predicate StillGood(cached: Option<Fetched>, now: int) {
    cached.Some? && now - cached.value.at < PARAMS_CACHE_TTL
  }

  /** What a call answers, given what the query would. */
  function Ceilings(cached: Option<Fetched>, lookAt: int, reply: Option<Params>): Option<Params> {
    if StillGood(cached, lookAt) then Some(cached.value.params) else reply
  }

  /** What it leaves in the cache, when an answer is stamped at stampAt. */
  function Kept(cached: Option<Fetched>, lookAt: int, reply: Option<Params>, stampAt: int): Option<Fetched> {
    if StillGood(cached, lookAt) || reply.None? then cached else Some(Fetched(reply.value, stampAt))
  }

  class ParamsCache {
    var cached: Option<Fetched>

    constructor ()
      ensures cached == None
    {
      cached := None;
    }

    /** One call, from taking the lock to releasing it. */
    method WalletParams(lookAt: int, reply: Option<Params>, stampAt: int) returns (r: Option<Params>)
      modifies this
      ensures r == Ceilings(old(cached), lookAt, reply)
      ensures cached == Kept(old(cached), lookAt, reply, stampAt)
    {
      if cached.Some? && lookAt - cached.value.at < PARAMS_CACHE_TTL {
        return Some(cached.value.params);
      }
      if reply.None? {
        return None;
      }
      cached := Some(Fetched(reply.value, stampAt));
      return reply;
    }
  }
}

/** Any number of concurrent walletParams calls. */
module WalletParamsMachine {
  import opened Prelude
  import opened Verification
  import opened WalletParams
  import opened Spacing

  datatype Phase =
    | Waiting
    | Holding
    | Asking
    | Replied(params: Params, sampledAt: int)
    | Done(result: Option<Params>, readAt: int, sampledAt: int)

  /** origin says when the cached value was true on the chain, and stamps lists the successful
      fetches; the code keeps neither. */
  datatype State = State(
    now: int,
    chain: Params,
    cached: Option<Fetched>,
    origin: int,
    stamps: seq<int>,
    lock: Option<nat>,
    calls: map<nat, Phase>)

  datatype Step =
    | Begin(id: nat)
    | Lock(id: nat)
    | Look(id: nat)
    | Sample(id: nat)
    | Fail(id: nat)
    | Stamp(id: nat)
    | Tick(seconds: nat)
    | Govern(params: Params)

  predicate Enabled(latency: nat, s: State, step: Step) {
    match step
    case Begin(id) => id !in s.calls
    case Lock(id) => id in s.calls && s.calls[id].Waiting? && s.lock == None
    case Look(id) => id in s.calls && s.calls[id].Holding?
    case Sample(id) => id in s.calls && s.calls[id].Asking?
    case Fail(id) => id in s.calls && (s.calls[id].Asking? || s.calls[id].Replied?)
    case Stamp(id) => id in s.calls && s.calls[id].Replied? && s.now - s.calls[id].sampledAt <= latency
    case Tick(_) => true
    case Govern(_) => true
  }

  function Apply(latency: nat, s: State, step: Step): State
    requires Enabled(latency, s, step)
  {
    match step
    case Begin(id) => s.(calls := s.calls[id := Waiting])
    case Lock(id) => s.(calls := s.calls[id := Holding], lock := Some(id))
    case Look(id) =>
      if StillGood(s.cached, s.now)
      then s.(calls := s.calls[id := Done(Some(s.cached.value.params), s.now, s.origin)], lock := None)
      else s.(calls := s.calls[id := Asking])
    case Sample(id) => s.(calls := s.calls[id := Replied(s.chain, s.now)])
    case Fail(id) => s.(calls := s.calls[id := Done(None, s.now, s.now)], lock := None)
    case Stamp(id) =>
      var Replied(params, sampledAt) := s.calls[id];
      s.(calls := s.calls[id := Done(Some(params), s.now, sampledAt)],
         cached := Some(Fetched(params, s.now)), origin := sampledAt,
         stamps := s.stamps + [s.now], lock := None)
    case Tick(seconds) => s.(now := s.now + seconds)
    case Govern(params) => s.(chain := params)
  }

  predicate Next(latency: nat, s: State, step: Step, s': State) {
    Enabled(latency, s, step) && s' == Apply(latency, s, step)
  }

  predicate Initial(s: State) {
    s.cached == None && s.stamps == [] && s.lock == None && s.calls == map[]
  }

  datatype Run = Run(states: seq<State>, steps: seq<Step>)

  predicate IsRun(latency: nat, run: Run) {
    && |run.states| == |run.steps| + 1
    && Initial(run.states[0])
    && forall i | 0 <= i < |run.steps| :: Next(latency, run.states[i], run.steps[i], run.states[i + 1])
  }

  // -- one call on its own ---------------------------------------------------------------

  /** What is left when nothing but the clock moves during one call. */
  function Undisturbed(latency: nat, s: State, id: nat, wait: nat, travel: nat, lost: bool): State
    requires id in s.calls && s.calls[id].Waiting? && s.lock == None && travel <= latency
  {
    var looked := Apply(latency, Apply(latency, s, Lock(id)), Look(id));
    if looked.calls[id].Done? then looked
    else
      var waited := Apply(latency, looked, Tick(wait));
      if lost then Apply(latency, waited, Fail(id))
      else Apply(latency, Apply(latency, Apply(latency, waited, Sample(id)), Tick(travel)), Stamp(id))
  }

  /** The steps of one call, taken without interruption, are the method: the same answer, the same
      cache, and the lock given back. */
  lemma UndisturbedIsWalletParams(latency: nat, s: State, id: nat, wait: nat, travel: nat, lost: bool)
    requires id in s.calls && s.calls[id].Waiting? && s.lock == None && travel <= latency
    ensures var reply := if lost then None else Some(s.chain);
            var s' := Undisturbed(latency, s, id, wait, travel, lost);
            && s'.calls[id].Done? && s'.calls[id].result == Ceilings(s.cached, s.now, reply)
            && s'.cached == Kept(s.cached, s.now, reply, s.now + wait + travel)
            && s'.lock == None
  {}

  // -- the lock, and the distance between fetches ---------------------------------------

  predicate Critical(phase: Phase) {
    phase.Holding? || phase.Asking? || phase.Replied?
  }

  predicate Due(s: State) {
    s.stamps != [] ==> s.now - Last(s.stamps) >= PARAMS_CACHE_TTL
  }

  predicate CallLocked(s: State, id: nat)
    requires id in s.calls
  {
    && (Critical(s.calls[id]) <==> s.lock == Some(id))
    && (s.calls[id].Asking? || s.calls[id].Replied? ==> Due(s))
  }

  predicate Locked(s: State) {
    && (s.lock.Some? ==> s.lock.value in s.calls)
    && (forall id | id in s.calls :: CallLocked(s, id))
    && Spaced(s.stamps, PARAMS_CACHE_TTL)
    && (s.cached.None? <==> s.stamps == [])
    && (s.cached.Some? ==> s.cached.value.at == Last(s.stamps))
  }

  lemma LockedStep(latency: nat, s: State, step: Step)
    requires Locked(s) && Enabled(latency, s, step)
    ensures Locked(Apply(latency, s, step))
  {
    var s' := Apply(latency, s, step);
    forall id | id in s'.calls ensures CallLocked(s', id) {
      if id in s.calls {
        assert CallLocked(s, id);
      }
      if !step.Tick? && !step.Govern? && step.id in s.calls {
        assert CallLocked(s, step.id);
      }
    }
    if step.Stamp? {
      assert CallLocked(s, step.id);
      SpacedSnoc(s.stamps, PARAMS_CACHE_TTL, s.now);
    }
  }

  lemma {:induction false} LockedAlways(latency: nat, run: Run, i: nat)
    requires IsRun(latency, run) && i < |run.states|
    ensures Locked(run.states[i])
  {
    if i > 0 {
      LockedAlways(latency, run, i - 1);
      assert Next(latency, run.states[i - 1], run.steps[i - 1], run.states[i - 1 + 1]);
      LockedStep(latency, run.states[i - 1], run.steps[i - 1]);
    }
  }

  /** Over every interleaving successful fetches keep a cache lifetime apart, so n of them span at
      least n - 1 lifetimes; at most one call is inside, and the lock is free when none is. */
  lemma FetchSpacing(latency: nat, run: Run, i: nat, a: nat, b: nat)
    requires IsRun(latency, run) && i < |run.states|
    requires a <= b < |run.states[i].stamps|
    ensures Spaced(run.states[i].stamps, PARAMS_CACHE_TTL)
    ensures run.states[i].stamps[b] - run.states[i].stamps[a] >= (b - a) * 60
  {
    LockedAlways(latency, run, i);
    SpacedSpan(run.states[i].stamps, PARAMS_CACHE_TTL, a, b);
  }

  lemma LockFreeWhenNobodyInside(latency: nat, run: Run, i: nat)
    requires IsRun(latency, run) && i < |run.states|
    ensures run.states[i].lock == None <==> forall id | id in run.states[i].calls :: !Critical(run.states[i].calls[id])
    ensures forall x, y | x in run.states[i].calls && y in run.states[i].calls
              && Critical(run.states[i].calls[x]) && Critical(run.states[i].calls[y]) :: x == y
  {
    LockedAlways(latency, run, i);
    var s := run.states[i];
    assert forall id | id in s.calls :: CallLocked(s, id);
    if s.lock.Some? {
      assert CallLocked(s, s.lock.value);
      assert Critical(s.calls[s.lock.value]);
    }
  }

  // -- how old a ceiling can be ------------------------------------------------------------

  /** Some state of the run so far had this value on the chain at this time. */
  ghost predicate WasTrue(run: Run, i: nat, params: Params, at: int) {
    exists j :: 0 <= j <= i && j < |run.states| && run.states[j].chain == params && run.states[j].now == at
  }

  ghost predicate CallFresh(latency: nat, run: Run, i: nat, now: int, phase: Phase) {
    match phase
    case Replied(params, at) => WasTrue(run, i, params, at) && at <= now
    case Done(Some(params), readAt, at) =>
      WasTrue(run, i, params, at) && at <= readAt && readAt - at < PARAMS_CACHE_TTL + latency
    case _ => true
  }

  ghost predicate CacheFresh(latency: nat, run: Run, i: nat, s: State) {
    s.cached.Some? ==>
      && WasTrue(run, i, s.cached.value.params, s.origin)
      && s.origin <= s.cached.value.at <= s.now
      && s.cached.value.at - s.origin <= latency
  }

  lemma StillTrue(run: Run, i: nat, j: nat, params: Params, at: int)
    requires WasTrue(run, i, params, at) && i <= j
    ensures WasTrue(run, j, params, at)
  {}

  lemma {:induction false} FreshAlways(latency: nat, run: Run, i: nat)
    requires IsRun(latency, run) && i < |run.states|
    ensures CacheFresh(latency, run, i, run.states[i])
    ensures forall id | id in run.states[i].calls ::
              CallFresh(latency, run, i, run.states[i].now, run.states[i].calls[id])
  {
    if i > 0 {
      var s, step, s' := run.states[i - 1], run.steps[i - 1], run.states[i];
      FreshAlways(latency, run, i - 1);
      assert Next(latency, s, step, run.states[i - 1 + 1]);
      if s.cached.Some? {
        StillTrue(run, i - 1, i, s.cached.value.params, s.origin);
      }
      assert WasTrue(run, i, s.chain, s.now);
      forall id | id in s'.calls ensures CallFresh(latency, run, i, s'.now, s'.calls[id]) {
        if id in s.calls {
          CallStaysFresh(latency, run, i - 1, s.now, s'.now, s.calls[id]);
        }
      }
      if step.Stamp? {
        assert CallFresh(latency, run, i - 1, s.now, s.calls[step.id]);
        StillTrue(run, i - 1, i, s.calls[step.id].params, s.calls[step.id].sampledAt);
      }
    }
  }

  lemma CallStaysFresh(latency: nat, run: Run, i: nat, now: int, later: int, phase: Phase)
    requires CallFresh(latency, run, i, now, phase) && now <= later
    ensures CallFresh(latency, run, i + 1, later, phase)
  {
    match phase
    case Replied(params, at) => StillTrue(run, i, i + 1, params, at);
    case Done(Some(params), _, at) => StillTrue(run, i, i + 1, params, at);
    case _ =>
  }

  /** Every ceiling a call returns was the chain's own, less than a cache lifetime plus one query
      latency before the call read it. */
  lemma CeilingAge(latency: nat, run: Run, i: nat, id: nat, params: Params) returns (j: nat)
    requires IsRun(latency, run) && i < |run.states| && id in run.states[i].calls
    requires run.states[i].calls[id].Done? && run.states[i].calls[id].result == Some(params)
    ensures j <= i && run.states[j].chain == params
    ensures 0 <= run.states[i].calls[id].readAt - run.states[j].now < 60 + latency
  {
    FreshAlways(latency, run, i);
    var phase := run.states[i].calls[id];
    assert CallFresh(latency, run, i, run.states[i].now, phase);
    assert WasTrue(run, i, params, phase.sampledAt);
    j :| 0 <= j <= i && j < |run.states| && run.states[j].chain == params && run.states[j].now == phase.sampledAt;
  }
}
