/** delegated.Service.checkRootState: a cache of root-delegation states that lets go of its lock
    while it asks the chain. */
module RootStates {
  import opened Prelude

  const EPOCH_CACHE_TTL: int := 10

  type Root = Bytes

  /** The revocation levers the chain holds for one root. */
  datatype RootState = RootState(epoch: nat, paused: bool)

  datatype EpochEntry = EpochEntry(epoch: nat, paused: bool, fetched: int)

  type Cache = map<Root, EpochEntry>

  datatype Verdict = Passed | Unavailable | Paused | OtherEpoch

  function FreshEntry(cache: Cache, root: Root, now: int): Option<EpochEntry> {
    if root in cache && now - cache[root].fetched < EPOCH_CACHE_TTL then Some(cache[root]) else None
  }

  function Judge(entry: EpochEntry, rootEpoch: nat): Verdict {
    if entry.paused then Paused
    else if entry.epoch != rootEpoch then OtherEpoch
    else Passed
  }

  /** What a call on its own answers, given what the query would and when. */
  function CheckVerdict(cache: Cache, root: Root, rootEpoch: nat, lookAt: int, reply: Option<RootState>,
                        stampAt: int): Verdict {
    match (FreshEntry(cache, root, lookAt), reply)
    case (Some(entry), _) => Judge(entry, rootEpoch)
    case (None, None) => Unavailable
    case (None, Some(state)) => Judge(EpochEntry(state.epoch, state.paused, stampAt), rootEpoch)
  }

  /** The cache such a call leaves. */
  function CheckedCache(cache: Cache, root: Root, lookAt: int, reply: Option<RootState>, stampAt: int): Cache {
    if FreshEntry(cache, root, lookAt).Some? || reply.None? then cache
    else cache[root := EpochEntry(reply.value.epoch, reply.value.paused, stampAt)]
  }

  /** The cache itself: two short critical sections with the query between them. */
  class EpochCache {
    var epochCache: Cache

    constructor ()
      ensures epochCache == map[]
    {
      epochCache := map[];
    }

    method Lookup(root: Root, now: int) returns (entry: Option<EpochEntry>)
      ensures entry == FreshEntry(epochCache, root, now)
    {
      if root in epochCache {
        var found := epochCache[root];
        if now - found.fetched < EPOCH_CACHE_TTL {
          return Some(found);
        }
      }
      return None;
    }

    method Put(root: Root, entry: EpochEntry)
      modifies this
      ensures epochCache == old(epochCache)[root := entry]
    {
      epochCache := epochCache[root := entry];
    }

    /** One call on its own: looked at lookAt, answered by reply, stamped at stampAt. */
    method CheckRootState(root: Root, rootEpoch: nat, lookAt: int, reply: Option<RootState>, stampAt: int)
      returns (verdict: Verdict)
      modifies this
      ensures verdict == CheckVerdict(old(epochCache), root, rootEpoch, lookAt, reply, stampAt)
      ensures epochCache == CheckedCache(old(epochCache), root, lookAt, reply, stampAt)
      ensures FreshEntry(old(epochCache), root, lookAt).None? && reply.Some? ==>
                && epochCache == old(epochCache)[root := EpochEntry(reply.value.epoch, reply.value.paused, stampAt)]
                && verdict == if reply.value.paused then Paused
                              else if reply.value.epoch == rootEpoch then Passed else OtherEpoch
      ensures FreshEntry(old(epochCache), root, lookAt).None? && reply.None? ==>
                verdict == Unavailable && epochCache == old(epochCache)
    {
      var hit := Lookup(root, lookAt);
      if hit.Some? {
        return Judge(hit.value, rootEpoch);
      }
      if reply.None? {
        return Unavailable;
      }
      var entry := EpochEntry(reply.value.epoch, reply.value.paused, stampAt);
      Put(root, entry);
      return Judge(entry, rootEpoch);
    }
  }
}

/** Any number of concurrent checkRootState calls, a clock and a chain that changes its mind. */
module RootStateMachine {
  import opened Prelude
  import opened RootStates

  datatype Phase =
    | Called
    | Asking
    | Replied(state: RootState, sampledAt: int)
    | Stamped(entry: EpochEntry, sampledAt: int)
    | Done(verdict: Verdict)

  datatype Call = Call(root: Root, epoch: nat, started: int, phase: Phase)

  /** The shared state. origin says when the cached answer was true on the chain, and stamps
      lists when each root was successfully asked about; the code keeps neither. */
  datatype State = State(
    now: int,
    chain: map<Root, RootState>,
    cache: Cache,
    origin: map<Root, int>,
    stamps: map<Root, seq<int>>,
    calls: map<nat, Call>)

  datatype Step =
    | Begin(id: nat, root: Root, epoch: nat)
    | Look(id: nat)
    | Sample(id: nat)
    | Fail(id: nat)
    | Stamp(id: nat)
    | Store(id: nat)
    | Tick(seconds: nat)
    | Govern(root: Root, state: Option<RootState>)

  /** latency is the longest a sampled answer takes to be stamped. */
  predicate Enabled(latency: nat, s: State, step: Step) {
    match step
    case Begin(id, _, _) => id !in s.calls
    case Look(id) => id in s.calls && s.calls[id].phase.Called?
    case Sample(id) => id in s.calls && s.calls[id].phase.Asking?
    case Fail(id) => id in s.calls && (s.calls[id].phase.Asking? || s.calls[id].phase.Replied?)
    case Stamp(id) => id in s.calls && s.calls[id].phase.Replied? && s.now - s.calls[id].phase.sampledAt <= latency
    case Store(id) => id in s.calls && s.calls[id].phase.Stamped?
    case Tick(_) => true
    case Govern(_, _) => true
  }

  function At(s: State, id: nat, phase: Phase): State
    requires id in s.calls
  {
    s.(calls := s.calls[id := s.calls[id].(phase := phase)])
  }

  function Apply(latency: nat, s: State, step: Step): State
    requires Enabled(latency, s, step)
  {
    match step
    case Begin(id, root, epoch) => s.(calls := s.calls[id := Call(root, epoch, s.now, Called)])
    case Look(id) =>
      var call := s.calls[id];
      (match FreshEntry(s.cache, call.root, s.now)
       case Some(entry) => At(s, id, Done(Judge(entry, call.epoch)))
       case None => At(s, id, Asking))
    case Sample(id) =>
      var root := s.calls[id].root;
      if root in s.chain then At(s, id, Replied(s.chain[root], s.now)) else At(s, id, Done(Unavailable))
    case Fail(id) => At(s, id, Done(Unavailable))
    case Stamp(id) =>
      var call := s.calls[id];
      var entry := EpochEntry(call.phase.state.epoch, call.phase.state.paused, s.now);
      var earlier := if call.root in s.stamps then s.stamps[call.root] else [];
      At(s, id, Stamped(entry, call.phase.sampledAt)).(stamps := s.stamps[call.root := earlier + [s.now]])
    case Store(id) =>
      var call := s.calls[id];
      At(s, id, Done(Judge(call.phase.entry, call.epoch))).(
        cache := s.cache[call.root := call.phase.entry],
        origin := s.origin[call.root := call.phase.sampledAt])
    case Tick(seconds) => s.(now := s.now + seconds)
    case Govern(root, None) => s.(chain := s.chain - {root})
    case Govern(root, Some(state)) => s.(chain := s.chain[root := state])
  }

  predicate Next(latency: nat, s: State, step: Step, s': State) {
    Enabled(latency, s, step) && s' == Apply(latency, s, step)
  }

  predicate Initial(s: State) {
    s.cache == map[] && s.origin == map[] && s.stamps == map[] && s.calls == map[]
  }

  /** A run: every interleaving of calls, clock and chain is one. */
  datatype Run = Run(states: seq<State>, steps: seq<Step>)

  predicate IsRun(latency: nat, run: Run) {
    && |run.states| == |run.steps| + 1
    && Initial(run.states[0])
    && forall i | 0 <= i < |run.steps| :: Next(latency, run.states[i], run.steps[i], run.states[i + 1])
  }

  lemma StepTaken(latency: nat, run: Run, i: nat)
    requires IsRun(latency, run) && i < |run.steps|
    ensures Enabled(latency, run.states[i], run.steps[i])
    ensures run.states[i + 1] == Apply(latency, run.states[i], run.steps[i])
  {
    assert Next(latency, run.states[i], run.steps[i], run.states[i + 1]);
  }

  // -- one call on its own ----------------------------------------------------------------

  /** What is left when nothing but the clock moves during one call: it waits for its answer,
      which then travels back, or never comes. */
  function Undisturbed(latency: nat, s: State, id: nat, wait: nat, travel: nat, lost: bool): State
    requires id in s.calls && s.calls[id].phase.Called? && travel <= latency
  {
    var looked := Apply(latency, s, Look(id));
    if looked.calls[id].phase.Done? then looked
    else Queried(latency, Apply(latency, looked, Tick(wait)), id, travel, lost)
  }

  function Queried(latency: nat, s: State, id: nat, travel: nat, lost: bool): State
    requires id in s.calls && s.calls[id].phase.Asking? && travel <= latency
  {
    if lost then Apply(latency, s, Fail(id))
    else
      var sampled := Apply(latency, s, Sample(id));
      if sampled.calls[id].phase.Done? then sampled else Delivered(latency, sampled, id, travel)
  }

  function Delivered(latency: nat, s: State, id: nat, travel: nat): State
    requires id in s.calls && s.calls[id].phase.Replied? && s.calls[id].phase.sampledAt == s.now && travel <= latency
  {
    Apply(latency, Apply(latency, Apply(latency, s, Tick(travel)), Stamp(id)), Store(id))
  }

  /** An answer that comes ends the call with its verdict, and is the cache's new entry. */
  lemma DeliveredAnswer(latency: nat, s: State, id: nat, travel: nat)
    requires id in s.calls && s.calls[id].phase.Replied? && s.calls[id].phase.sampledAt == s.now && travel <= latency
    ensures var call := s.calls[id];
            var entry := EpochEntry(call.phase.state.epoch, call.phase.state.paused, s.now + travel);
            var s' := Delivered(latency, s, id, travel);
            && id in s'.calls && s'.calls[id].phase == Done(Judge(entry, call.epoch))
            && s'.cache == s.cache[call.root := entry]
  {}

  /** After a miss the call ends as the answer says; an error leaves the cache alone. */
  lemma QueriedAnswer(latency: nat, s: State, id: nat, travel: nat, lost: bool)
    requires id in s.calls && s.calls[id].phase.Asking? && travel <= latency
    ensures var call := s.calls[id];
            var s' := Queried(latency, s, id, travel, lost);
            if lost || call.root !in s.chain
            then id in s'.calls && s'.calls[id].phase == Done(Unavailable) && s'.cache == s.cache
            else
              var state := s.chain[call.root];
              var entry := EpochEntry(state.epoch, state.paused, s.now + travel);
              && id in s'.calls && s'.calls[id].phase == Done(Judge(entry, call.epoch))
              && s'.cache == s.cache[call.root := entry]
  {
    if !lost && s.calls[id].root in s.chain {
      DeliveredAnswer(latency, Apply(latency, s, Sample(id)), id, travel);
    }
  }

  /** The steps of one call, taken without interruption, are the method: the same verdict and the
      same cache, for the answer the chain gives it. */
  lemma UndisturbedIsCheckRootState(latency: nat, s: State, id: nat, wait: nat, travel: nat, lost: bool)
    requires id in s.calls && s.calls[id].phase.Called? && travel <= latency
    ensures var call := s.calls[id];
            var reply := if lost || call.root !in s.chain then None else Some(s.chain[call.root]);
            var stampAt := s.now + wait + travel;
            var s' := Undisturbed(latency, s, id, wait, travel, lost);
            && s'.calls[id].phase == Done(CheckVerdict(s.cache, call.root, call.epoch, s.now, reply, stampAt))
            && s'.cache == CheckedCache(s.cache, call.root, s.now, reply, stampAt)
  {
    if FreshEntry(s.cache, s.calls[id].root, s.now).None? {
      QueriedAnswer(latency, Apply(latency, Apply(latency, s, Look(id)), Tick(wait)), id, travel, lost);
    }
  }

  /** A call past a miss answers as the chain does: a live root passes at its own epoch and at no
      other, and a paused one does not pass. */
  lemma MissAnswersAsTheChainSays(latency: nat, s: State, id: nat, wait: nat, travel: nat)
    requires id in s.calls && s.calls[id].phase.Called? && travel <= latency
    requires FreshEntry(s.cache, s.calls[id].root, s.now).None? && s.calls[id].root in s.chain
    ensures var state := s.chain[s.calls[id].root];
            Undisturbed(latency, s, id, wait, travel, false).calls[id].phase
            == Done(if state.paused then Paused else if state.epoch == s.calls[id].epoch then Passed else OtherEpoch)
  {
    UndisturbedIsCheckRootState(latency, s, id, wait, travel, false);
  }

  // -- what every state keeps ---------------------------------------------------------

  predicate CallOk(latency: nat, now: int, call: Call) {
    && call.started <= now
    && match call.phase
       case Replied(_, at) => call.started <= at <= now
       case Stamped(entry, at) => call.started <= at <= entry.fetched <= now && entry.fetched - at <= latency
       case _ => true
  }

  predicate EntryOk(latency: nat, s: State, root: Root)
    requires root in s.cache
  {
    && root in s.origin
    && s.origin[root] <= s.cache[root].fetched <= s.now
    && s.cache[root].fetched - s.origin[root] <= latency
  }

  predicate Sound(latency: nat, s: State) {
    && (forall root | root in s.cache :: EntryOk(latency, s, root))
    && (forall id | id in s.calls :: CallOk(latency, s.now, s.calls[id]))
  }

  /** A step moves at most its own call. */
  lemma OthersUnmoved(latency: nat, s: State, step: Step, id: nat)
    requires Enabled(latency, s, step) && id in Apply(latency, s, step).calls
    ensures id !in s.calls ==> step.Begin? && Apply(latency, s, step).calls[id].phase.Called?
                               && Apply(latency, s, step).calls[id].started == s.now
    ensures id in s.calls && (step.Tick? || step.Govern? || step.id != id) ==>
              Apply(latency, s, step).calls[id] == s.calls[id]
    ensures s.now <= Apply(latency, s, step).now
  {}

  lemma SoundStep(latency: nat, s: State, step: Step)
    requires Sound(latency, s) && Enabled(latency, s, step)
    ensures Sound(latency, Apply(latency, s, step))
  {
    var s' := Apply(latency, s, step);
    forall root | root in s'.cache ensures EntryOk(latency, s', root) {
      if root in s.cache {
        assert EntryOk(latency, s, root);
      }
    }
    forall id | id in s'.calls ensures CallOk(latency, s'.now, s'.calls[id]) {
      if id in s.calls {
        assert CallOk(latency, s.now, s.calls[id]);
      }
    }
  }

  lemma {:induction false} SoundAlways(latency: nat, run: Run, i: nat)
    requires IsRun(latency, run) && i < |run.states|
    ensures Sound(latency, run.states[i])
  {
    if i > 0 {
      SoundAlways(latency, run, i - 1);
      assert Next(latency, run.states[i - 1], run.steps[i - 1], run.states[i - 1 + 1]);
      SoundStep(latency, run.states[i - 1], run.steps[i - 1]);
    }
  }

  // -- what a verdict says ---------------------------------------------------------------

  /** Some state of the run so far had this on the chain for this root at this time. */
  ghost predicate WasState(run: Run, i: nat, root: Root, state: RootState, at: int) {
    exists j :: 0 <= j <= i && j < |run.states| && run.states[j].now == at
                && root in run.states[j].chain && run.states[j].chain[root] == state
  }

  predicate Fits(verdict: Verdict, state: RootState, epoch: nat) {
    match verdict
    case Passed => !state.paused && state.epoch == epoch
    case Paused => state.paused
    case OtherEpoch => !state.paused && state.epoch != epoch
    case Unavailable => false
  }

  ghost predicate CallHeard(latency: nat, run: Run, i: nat, call: Call) {
    match call.phase
    case Replied(state, at) => WasState(run, i, call.root, state, at)
    case Stamped(entry, at) => WasState(run, i, call.root, RootState(entry.epoch, entry.paused), at)
    case Done(verdict) =>
      verdict == Unavailable
      || exists state, at :: WasState(run, i, call.root, state, at) && Fits(verdict, state, call.epoch)
                             && call.started - at < EPOCH_CACHE_TTL + latency
    case _ => true
  }

  ghost predicate CacheHeard(run: Run, i: nat, s: State) {
    forall root | root in s.cache ::
      root in s.origin && WasState(run, i, root, RootState(s.cache[root].epoch, s.cache[root].paused), s.origin[root])
  }

  lemma StillWas(run: Run, i: nat, root: Root, state: RootState, at: int)
    requires WasState(run, i, root, state, at)
    ensures WasState(run, i + 1, root, state, at)
  {}

  lemma CallStillHeard(latency: nat, run: Run, i: nat, call: Call)
    requires CallHeard(latency, run, i, call)
    ensures CallHeard(latency, run, i + 1, call)
  {
    match call.phase
    case Replied(state, at) => StillWas(run, i, call.root, state, at);
    case Stamped(entry, at) => StillWas(run, i, call.root, RootState(entry.epoch, entry.paused), at);
    case Done(verdict) =>
      if verdict != Unavailable {
        var state, at :| WasState(run, i, call.root, state, at) && Fits(verdict, state, call.epoch)
                         && call.started - at < EPOCH_CACHE_TTL + latency;
        StillWas(run, i, call.root, state, at);
      }
    case _ =>
  }

  lemma HitHeard(latency: nat, run: Run, i: nat, id: nat)
    requires i < |run.states| && Sound(latency, run.states[i]) && CacheHeard(run, i, run.states[i])
    requires id in run.states[i].calls
    requires FreshEntry(run.states[i].cache, run.states[i].calls[id].root, run.states[i].now).Some?
    ensures var s := run.states[i];
            var call := s.calls[id];
            CallHeard(latency, run, i, call.(phase := Done(Judge(s.cache[call.root], call.epoch))))
  {
    var s := run.states[i];
    var call := s.calls[id];
    var entry := s.cache[call.root];
    var state := RootState(entry.epoch, entry.paused);
    assert EntryOk(latency, s, call.root) && CallOk(latency, s.now, call);
    assert WasState(run, i, call.root, state, s.origin[call.root]) && Fits(Judge(entry, call.epoch), state, call.epoch);
  }

  lemma StoredHeard(latency: nat, run: Run, i: nat, now: int, call: Call)
    requires call.phase.Stamped? && CallHeard(latency, run, i, call) && CallOk(latency, now, call)
    ensures CallHeard(latency, run, i, call.(phase := Done(Judge(call.phase.entry, call.epoch))))
  {
    var entry := call.phase.entry;
    var state := RootState(entry.epoch, entry.paused);
    assert WasState(run, i, call.root, state, call.phase.sampledAt);
    assert Fits(Judge(entry, call.epoch), state, call.epoch);
  }

  lemma CallHeardStep(latency: nat, run: Run, i: nat, step: Step, id: nat)
    requires i < |run.states| && Sound(latency, run.states[i]) && Enabled(latency, run.states[i], step)
    requires CacheHeard(run, i, run.states[i])
    requires id in run.states[i].calls && CallHeard(latency, run, i, run.states[i].calls[id])
    ensures var s' := Apply(latency, run.states[i], step);
            id in s'.calls && CallHeard(latency, run, i, s'.calls[id])
  {
    var s := run.states[i];
    var call := s.calls[id];
    if step == Look(id) && FreshEntry(s.cache, call.root, s.now).Some? {
      HitHeard(latency, run, i, id);
    } else if step == Sample(id) && call.root in s.chain {
      assert WasState(run, i, call.root, s.chain[call.root], s.now);
    } else if step == Store(id) {
      assert CallOk(latency, s.now, call);
      StoredHeard(latency, run, i, s.now, call);
    } else if step.Tick? || step.Govern? || step.id != id {
      OthersUnmoved(latency, s, step, id);
    }
  }

  lemma CacheHeardStep(latency: nat, run: Run, i: nat, step: Step, root: Root)
    requires i < |run.states| && Enabled(latency, run.states[i], step)
    requires CacheHeard(run, i, run.states[i])
    requires forall id | id in run.states[i].calls :: CallHeard(latency, run, i, run.states[i].calls[id])
    requires root in Apply(latency, run.states[i], step).cache
    ensures var s' := Apply(latency, run.states[i], step);
            root in s'.origin
            && WasState(run, i + 1, root, RootState(s'.cache[root].epoch, s'.cache[root].paused), s'.origin[root])
  {
    var s := run.states[i];
    if step.Store? && s.calls[step.id].root == root {
      assert CallHeard(latency, run, i, s.calls[step.id]);
      var entry := s.calls[step.id].phase.entry;
      StillWas(run, i, root, RootState(entry.epoch, entry.paused), s.calls[step.id].phase.sampledAt);
    } else {
      StillWas(run, i, root, RootState(s.cache[root].epoch, s.cache[root].paused), s.origin[root]);
    }
  }

  lemma {:induction false} HeardAlways(latency: nat, run: Run, i: nat)
    requires IsRun(latency, run) && i < |run.states|
    ensures CacheHeard(run, i, run.states[i])
    ensures forall id | id in run.states[i].calls :: CallHeard(latency, run, i, run.states[i].calls[id])
  {
    if i > 0 {
      var s, step, s' := run.states[i - 1], run.steps[i - 1], run.states[i];
      HeardAlways(latency, run, i - 1);
      SoundAlways(latency, run, i - 1);
      StepTaken(latency, run, i - 1);
      forall root | root in s'.cache
        ensures root in s'.origin
                && WasState(run, i, root, RootState(s'.cache[root].epoch, s'.cache[root].paused), s'.origin[root])
      {
        CacheHeardStep(latency, run, i - 1, step, root);
      }
      forall id | id in s'.calls ensures CallHeard(latency, run, i, s'.calls[id]) {
        if id in s.calls {
          CallHeardStep(latency, run, i - 1, step, id);
          CallStillHeard(latency, run, i - 1, s'.calls[id]);
        } else {
          OthersUnmoved(latency, s, step, id);
        }
      }
    }
  }

  /** Over every interleaving a verdict is the chain's own: some state of the run, less than ten
      seconds plus one query latency before the call started or later, had the root as the verdict
      says, paused, at another epoch, or live at the call's. */
  lemma VerdictWasTrue(latency: nat, run: Run, i: nat, id: nat) returns (j: nat)
    requires IsRun(latency, run) && i < |run.states| && id in run.states[i].calls
    requires run.states[i].calls[id].phase.Done? && run.states[i].calls[id].phase.verdict != Unavailable
    ensures var call := run.states[i].calls[id];
            var verdict := call.phase.verdict;
            && j <= i && call.root in run.states[j].chain
            && call.started - run.states[j].now < 10 + latency
            && var state := run.states[j].chain[call.root];
               && (verdict == Passed <==> !state.paused && state.epoch == call.epoch)
               && (verdict == Paused <==> state.paused)
               && (verdict == OtherEpoch <==> !state.paused && state.epoch != call.epoch)
  {
    HeardAlways(latency, run, i);
    var call := run.states[i].calls[id];
    assert CallHeard(latency, run, i, call);
    var state, at :| WasState(run, i, call.root, state, at) && Fits(call.phase.verdict, state, call.epoch)
                     && call.started - at < EPOCH_CACHE_TTL + latency;
    j :| 0 <= j <= i && j < |run.states| && run.states[j].now == at
         && call.root in run.states[j].chain && run.states[j].chain[call.root] == state;
  }

  // -- revocation ------------------------------------------------------------------------

  /** The chain itself would answer that this root is live at this epoch. */
  predicate Grants(chain: map<Root, RootState>, root: Root, epoch: nat) {
    root in chain && chain[root] == RootState(epoch, false)
  }

  predicate CallBehind(latency: nat, p: int, call: Call, root: Root, epoch: nat) {
    call.root == root ==>
      match call.phase
      case Replied(state, at) => state == RootState(epoch, false) ==> at <= p
      case Stamped(entry, at) => Judge(entry, epoch) == Passed ==> at <= p
      case Done(Passed) => call.epoch == epoch ==> call.started < p + EPOCH_CACHE_TTL + latency
      case _ => true
  }

  /** After time p no new good news about this root and epoch has been heard. */
  predicate Behind(latency: nat, p: int, s: State, root: Root, epoch: nat) {
    && p <= s.now
    && (root in s.cache && Judge(s.cache[root], epoch) == Passed ==> root in s.origin && s.origin[root] <= p)
    && (forall id | id in s.calls :: CallBehind(latency, p, s.calls[id], root, epoch))
  }

  lemma BehindStep(latency: nat, p: int, s: State, step: Step, root: Root, epoch: nat)
    requires Sound(latency, s) && Enabled(latency, s, step)
    requires Behind(latency, p, s, root, epoch) && !Grants(s.chain, root, epoch)
    ensures Behind(latency, p, Apply(latency, s, step), root, epoch)
  {
    var s' := Apply(latency, s, step);
    if root in s.cache {
      assert EntryOk(latency, s, root);
    }
    forall id | id in s'.calls ensures CallBehind(latency, p, s'.calls[id], root, epoch) {
      if id in s.calls {
        assert CallOk(latency, s.now, s.calls[id]);
        assert CallBehind(latency, p, s.calls[id], root, epoch);
      }
    }
  }

  lemma BehindAtOnce(latency: nat, s: State, root: Root, epoch: nat)
    requires Sound(latency, s)
    ensures Behind(latency, s.now, s, root, epoch)
  {
    if root in s.cache {
      assert EntryOk(latency, s, root);
    }
    forall id | id in s.calls ensures CallBehind(latency, s.now, s.calls[id], root, epoch) {
      assert CallOk(latency, s.now, s.calls[id]);
    }
  }

  lemma {:induction false} BehindAlways(latency: nat, run: Run, k: nat, i: nat, root: Root, epoch: nat)
    requires IsRun(latency, run) && k <= i < |run.states|
    requires forall j | k <= j < |run.states| :: !Grants(run.states[j].chain, root, epoch)
    ensures Behind(latency, run.states[k].now, run.states[i], root, epoch)
    decreases i
  {
    if i == k {
      SoundAlways(latency, run, k);
      BehindAtOnce(latency, run.states[k], root, epoch);
    } else {
      BehindAlways(latency, run, k, i - 1, root, epoch);
      SoundAlways(latency, run, i - 1);
      StepTaken(latency, run, i - 1);
      BehindStep(latency, run.states[k].now, run.states[i - 1], run.steps[i - 1], root, epoch);
    }
  }

  /** Once a root stops granting an epoch, for good, no call that starts a cache lifetime plus one
      query latency later passes with it, whatever the other callers do. */
  lemma RevocationBound(latency: nat, run: Run, k: nat, i: nat, id: nat)
    requires IsRun(latency, run) && k <= i < |run.states| && id in run.states[i].calls
    requires var call := run.states[i].calls[id];
             forall j | k <= j < |run.states| :: !Grants(run.states[j].chain, call.root, call.epoch)
    requires run.states[i].calls[id].started >= run.states[k].now + EPOCH_CACHE_TTL + latency
    ensures run.states[i].calls[id].phase != Done(Passed)
  {
    var call := run.states[i].calls[id];
    BehindAlways(latency, run, k, i, call.root, call.epoch);
    assert CallBehind(latency, run.states[k].now, call, call.root, call.epoch);
  }

  /** One more step on a run; from index k on the chain stays as given. */
  lemma Extend(latency: nat, run: Run, step: Step, k: nat, chain: map<Root, RootState>) returns (longer: Run)
    requires IsRun(latency, run) && Enabled(latency, Last(run.states), step)
    requires forall j | k <= j < |run.states| :: run.states[j].chain == chain
    requires k <= |run.states| ==> Apply(latency, Last(run.states), step).chain == chain
    ensures IsRun(latency, longer)
    ensures longer.states == run.states + [Apply(latency, Last(run.states), step)]
    ensures longer.steps == run.steps + [step]
    ensures forall j | k <= j < |longer.states| :: longer.states[j].chain == chain
  {
    var next := Apply(latency, Last(run.states), step);
    longer := Run(run.states + [next], run.steps + [step]);
    forall i | 0 <= i < |longer.steps|
      ensures Next(latency, longer.states[i], longer.steps[i], longer.states[i + 1])
    {
      if i < |run.steps| {
        assert Next(latency, run.states[i], run.steps[i], run.states[i + 1]);
      }
    }
  }

  /** A root is asked about while live, and the answer is on its way. */
  lemma LiveAnswer(latency: nat, root: Root, epoch: nat, after: map<Root, RootState>) returns (run: Run)
    ensures IsRun(latency, run) && |run.states| == 4
    ensures Last(run.states) == State(0, map[root := RootState(epoch, false)], map[], map[], map[],
                                      map[0 := Call(root, epoch, 0, Replied(RootState(epoch, false), 0))])
  {
    var live := map[root := RootState(epoch, false)];
    run := Run([State(0, live, map[], map[], map[], map[])], []);
    run := Extend(latency, run, Begin(0, root, epoch), 4, after);
    run := Extend(latency, run, Look(0), 4, after);
    assert Last(run.states) == State(0, live, map[], map[], map[], map[0 := Call(root, epoch, 0, Asking)]);
    run := Extend(latency, run, Sample(0), 4, after);
  }

  /** A root that was live is asked about, paused by the chain, and only then stamped and stored. */
  lemma StalestAnswer(latency: nat, root: Root, epoch: nat) returns (run: Run)
    ensures IsRun(latency, run) && |run.states| == 8 && run.states[4].now == 0
    ensures forall j | 4 <= j < 8 :: run.states[j].chain == map[root := RootState(epoch, true)]
    ensures var s := Last(run.states);
            s.now == latency && s.cache == map[root := EpochEntry(epoch, false, latency)] && 1 !in s.calls
  {
    var live, paused := RootState(epoch, false), RootState(epoch, true);
    var after := map[root := paused];
    run := LiveAnswer(latency, root, epoch, after);
    run := Extend(latency, run, Govern(root, Some(paused)), 4, after);
    run := Extend(latency, run, Tick(latency), 4, after);
    assert Last(run.states).calls == map[0 := Call(root, epoch, 0, Replied(live, 0))];
    run := Extend(latency, run, Stamp(0), 4, after);
    assert Last(run.states).calls == map[0 := Call(root, epoch, 0, Stamped(EpochEntry(epoch, false, latency), 0))];
    run := Extend(latency, run, Store(0), 4, after);
  }

  /** The bound is exact for every latency and epoch: the chain pauses a root at second 0, and a call that
      starts one second before the bound still passes. The cache lifetime alone is not a bound. */
  lemma RevocationBoundIsTight(latency: nat, root: Root, epoch: nat) returns (run: Run, k: nat, i: nat)
    ensures IsRun(latency, run) && k <= i < |run.states| && 1 in run.states[i].calls
    ensures run.states[i].calls[1] == Call(root, epoch, run.states[k].now + EPOCH_CACHE_TTL + latency - 1, Done(Passed))
    ensures forall j | k <= j < |run.states| :: !Grants(run.states[j].chain, root, epoch)
  {
    var after := map[root := RootState(epoch, true)];
    run := StalestAnswer(latency, root, epoch);
    run := Extend(latency, run, Tick(9), 4, after);
    run := Extend(latency, run, Begin(1, root, epoch), 4, after);
    run := Extend(latency, run, Look(1), 4, after);
    k, i := 4, 10;
  }
}
