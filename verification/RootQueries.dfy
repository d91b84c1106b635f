/** How often concurrent checkRootState calls ask the chain about one root. */
module RootQueries {
  import opened Prelude
  import opened RootStates
  import opened RootStateMachine
  import opened Spacing

  /** A call that missed the cache on this root and whose answer may still be stamped or stored.
      A reply older than the latency can only fail. */
  predicate InWindow(latency: nat, s: State, call: Call, root: Root) {
    && call.root == root
    && match call.phase
       case Asking => true
       case Replied(_, at) => s.now - at <= latency
       case Stamped(_, _) => true
       case _ => false
  }

  predicate WindowEmpty(latency: nat, s: State, root: Root) {
    forall id | id in s.calls :: !InWindow(latency, s, s.calls[id], root)
  }

  /** At most one call is past a miss on this root; other roots, and hits, do not matter. */
  predicate AskedAlone(latency: nat, s: State, root: Root) {
    forall a, b | a in s.calls && b in s.calls
      && InWindow(latency, s, s.calls[a], root) && InWindow(latency, s, s.calls[b], root) :: a == b
  }

  predicate StampsSpaced(s: State, root: Root) {
    root in s.stamps ==> Spaced(s.stamps[root], EPOCH_CACHE_TTL)
  }

  // -- without overlap the spacing holds ---------------------------------------------------

  ghost predicate Filed(s: State, root: Root)
    requires root in s.stamps && s.stamps[root] != []
  {
    || (root in s.cache && s.cache[root].fetched == Last(s.stamps[root]))
    || exists id :: id in s.calls && s.calls[id].root == root && s.calls[id].phase.Stamped?
                    && s.calls[id].phase.entry.fetched == Last(s.stamps[root])
  }

  ghost predicate RootSpaced(s: State, root: Root) {
    root in s.stamps ==>
      && s.stamps[root] != []
      && Spaced(s.stamps[root], EPOCH_CACHE_TTL)
      && Filed(s, root)
  }

  predicate AsksLate(s: State, root: Root) {
    root in s.stamps && s.stamps[root] != [] ==> s.now - Last(s.stamps[root]) >= EPOCH_CACHE_TTL
  }

  /** A call that may still stamp comes late enough, and one that has stamped is the newest stamp. */
  predicate CallSpaced(latency: nat, s: State, call: Call) {
    InWindow(latency, s, call, call.root) ==>
      if call.phase.Stamped? then
        && call.root in s.stamps && s.stamps[call.root] != []
        && call.phase.entry.fetched == Last(s.stamps[call.root])
      else AsksLate(s, call.root)
  }

  ghost predicate WellSpaced(latency: nat, s: State, root: Root) {
    && RootSpaced(s, root)
    && (forall id | id in s.calls && s.calls[id].root == root :: CallSpaced(latency, s, s.calls[id]))
  }

  /** Only stamping and storing for this root touch what its spacing rests on. */
  lemma SpacingUntouched(latency: nat, s: State, step: Step, root: Root)
    requires Enabled(latency, s, step)
    requires step.Stamp? || step.Store? ==> s.calls[step.id].root != root
    ensures var s' := Apply(latency, s, step);
            && (root in s'.stamps <==> root in s.stamps)
            && (root in s.stamps ==> s'.stamps[root] == s.stamps[root])
            && (root in s.cache ==> root in s'.cache && s'.cache[root] == s.cache[root])
  {}

  lemma StampedUntouched(latency: nat, s: State, step: Step, id: nat)
    requires Enabled(latency, s, step)
    requires id in s.calls && s.calls[id].phase.Stamped? && step != Store(id)
    ensures id in Apply(latency, s, step).calls && Apply(latency, s, step).calls[id] == s.calls[id]
  {}

  lemma RootSpacedStep(latency: nat, s: State, step: Step, root: Root)
    requires WellSpaced(latency, s, root) && Enabled(latency, s, step)
    ensures RootSpaced(Apply(latency, s, step), root)
  {
    var s' := Apply(latency, s, step);
    if (step.Stamp? || step.Store?) && s.calls[step.id].root == root {
      assert CallSpaced(latency, s, s.calls[step.id]);
      if step.Stamp? {
        SpacedSnoc(if root in s.stamps then s.stamps[root] else [], EPOCH_CACHE_TTL, s.now);
        assert s'.calls[step.id].phase.Stamped?;
      }
    } else {
      SpacingUntouched(latency, s, step, root);
      if root in s.stamps && !(root in s.cache && s.cache[root].fetched == Last(s.stamps[root])) {
        var id :| id in s.calls && s.calls[id].root == root && s.calls[id].phase.Stamped?
                  && s.calls[id].phase.entry.fetched == Last(s.stamps[root]);
        StampedUntouched(latency, s, step, id);
      }
    }
  }

  /** A call that misses while nobody else is past a miss finds the newest stamp in the cache. */
  lemma EntersLate(latency: nat, s: State, step: Step, root: Root)
    requires WellSpaced(latency, s, root) && Enabled(latency, s, step) && Enters(s, step, root)
    requires AskedAlone(latency, Apply(latency, s, step), root)
    ensures AsksLate(Apply(latency, s, step), root)
  {
    var s' := Apply(latency, s, step);
    if root in s.stamps && !(root in s.cache && s.cache[root].fetched == Last(s.stamps[root])) {
      var id :| id in s.calls && s.calls[id].root == root && s.calls[id].phase.Stamped?
                && s.calls[id].phase.entry.fetched == Last(s.stamps[root]);
      StampedUntouched(latency, s, step, id);
      assert InWindow(latency, s', s'.calls[id], root) && InWindow(latency, s', s'.calls[step.id], root);
      assert false;
    }
  }

  lemma CallSpacedKept(latency: nat, s: State, step: Step, root: Root, id: nat)
    requires WellSpaced(latency, s, root) && Enabled(latency, s, step) && AskedAlone(latency, s, root)
    requires id in s.calls && InWindow(latency, s, s.calls[id], root) && id in Apply(latency, s, step).calls
    ensures CallSpaced(latency, Apply(latency, s, step), Apply(latency, s, step).calls[id])
  {
    assert CallSpaced(latency, s, s.calls[id]);
    OthersUnmoved(latency, s, step, id);
    if (step.Stamp? || step.Store?) && s.calls[step.id].root == root {
      assert InWindow(latency, s, s.calls[step.id], root);
    } else {
      SpacingUntouched(latency, s, step, root);
    }
  }

  lemma CallSpacedStep(latency: nat, s: State, step: Step, root: Root, id: nat)
    requires WellSpaced(latency, s, root) && Enabled(latency, s, step)
    requires AskedAlone(latency, s, root) && AskedAlone(latency, Apply(latency, s, step), root)
    requires id in Apply(latency, s, step).calls && Apply(latency, s, step).calls[id].root == root
    ensures CallSpaced(latency, Apply(latency, s, step), Apply(latency, s, step).calls[id])
  {
    var s' := Apply(latency, s, step);
    if InWindow(latency, s', s'.calls[id], root) {
      EntersByLook(latency, s, step, root, id);
      if Enters(s, step, root) && step.id == id {
        EntersLate(latency, s, step, root);
      } else {
        CallSpacedKept(latency, s, step, root, id);
      }
    }
  }

  lemma {:induction false} SpacedAlways(latency: nat, run: Run, i: nat, root: Root)
    requires IsRun(latency, run) && i < |run.states|
    requires forall j | 0 <= j <= i :: AskedAlone(latency, run.states[j], root)
    ensures WellSpaced(latency, run.states[i], root)
  {
    if i > 0 {
      var s, step := run.states[i - 1], run.steps[i - 1];
      SpacedAlways(latency, run, i - 1, root);
      assert Next(latency, s, step, run.states[i - 1 + 1]);
      RootSpacedStep(latency, s, step, root);
      forall id | id in run.states[i].calls && run.states[i].calls[id].root == root
        ensures CallSpaced(latency, run.states[i], run.states[i].calls[id])
      {
        CallSpacedStep(latency, s, step, root, id);
      }
    }
  }

  /** While at most one call at a time is past a miss on a root, that root is asked about at most
      once per cache lifetime, whatever happens to other roots: any window of that many seconds
      holds at most width / lifetime + 1 answered queries. */
  lemma QuerySpacing(latency: nat, run: Run, i: nat, root: Root, from: int, width: nat, a: nat, b: nat)
    requires IsRun(latency, run) && i < |run.states|
    requires forall j | 0 <= j <= i :: AskedAlone(latency, run.states[j], root)
    requires root in run.states[i].stamps && a <= b < |run.states[i].stamps[root]|
    requires from <= run.states[i].stamps[root][a] && run.states[i].stamps[root][b] <= from + width
    ensures Spaced(run.states[i].stamps[root], EPOCH_CACHE_TTL)
    ensures b - a + 1 <= width / 10 + 1
  {
    SpacedAlways(latency, run, i, root);
    SpacedInWindow(run.states[i].stamps[root], EPOCH_CACHE_TTL, from, width, a, b);
  }

  // -- how a call comes to be past a miss ------------------------------------------------------

  /** This step takes a call past a miss on this root. */
  predicate Enters(s: State, step: Step, root: Root) {
    && step.Look? && step.id in s.calls && s.calls[step.id].root == root
    && FreshEntry(s.cache, root, s.now).None?
  }

  lemma EntersByLook(latency: nat, s: State, step: Step, root: Root, id: nat)
    requires Enabled(latency, s, step) && id in Apply(latency, s, step).calls
    requires InWindow(latency, Apply(latency, s, step), Apply(latency, s, step).calls[id], root)
    ensures id in s.calls && s.calls[id].root == root
    ensures if Enters(s, step, root) && step.id == id then Apply(latency, s, step).calls[id].phase.Asking?
            else InWindow(latency, s, s.calls[id], root)
  {
    OthersUnmoved(latency, s, step, id);
  }

  lemma AloneStep(latency: nat, s: State, step: Step, root: Root)
    requires Enabled(latency, s, step) && AskedAlone(latency, s, root)
    requires Enters(s, step, root) ==> WindowEmpty(latency, s, root)
    ensures AskedAlone(latency, Apply(latency, s, step), root)
  {
    var s' := Apply(latency, s, step);
    forall a, b | a in s'.calls && b in s'.calls
      && InWindow(latency, s', s'.calls[a], root) && InWindow(latency, s', s'.calls[b], root)
      ensures a == b
    {
      EntersByLook(latency, s, step, root, a);
      EntersByLook(latency, s, step, root, b);
    }
  }

  // -- continuing a run ------------------------------------------------------------------------

  /** The longer run agrees with the other one up to state j. */
  predicate Extends(longer: Run, run: Run, j: nat) {
    && j < |run.states| && j <= |run.steps|
    && run.states[..j + 1] <= longer.states && run.steps[..j] <= longer.steps
  }

  /** From state j on, no call is let past a miss on this root while another one is. */
  predicate OneAtATime(latency: nat, run: Run, j: nat, root: Root) {
    forall i | j <= i < |run.steps| && i < |run.states| ::
      Enters(run.states[i], run.steps[i], root) ==> WindowEmpty(latency, run.states[i], root)
  }

  ghost predicate Continues(latency: nat, run: Run, longer: Run, root: Root) {
    && IsRun(latency, run) && IsRun(latency, longer)
    && Extends(longer, run, |run.steps|)
    && OneAtATime(latency, longer, |run.steps|, root)
    && Last(longer.states).now == Last(run.states).now
  }

  lemma Continue(latency: nat, base: Run, run: Run, root: Root, step: Step) returns (longer: Run)
    requires Continues(latency, base, run, root) && Enabled(latency, Last(run.states), step) && !step.Tick?
    requires Enters(Last(run.states), step, root) ==> WindowEmpty(latency, Last(run.states), root)
    ensures Continues(latency, base, longer, root)
    ensures Last(longer.states) == Apply(latency, Last(run.states), step)
  {
    longer := Extend(latency, run, step, |run.states| + 1, map[]);
    forall i | |base.steps| <= i < |longer.steps| && i < |longer.states|
      ensures Enters(longer.states[i], longer.steps[i], root) ==> WindowEmpty(latency, longer.states[i], root)
    {
      if i < |run.steps| {
        assert longer.states[i] == run.states[i] && longer.steps[i] == run.steps[i];
      }
    }
  }

  function Asked(s: State, root: Root): seq<int> {
    if root in s.stamps then s.stamps[root] else []
  }

  /** Only this call has moved, from one point of the window on this root to another. */
  predicate OnlyMoved(s: State, s': State, root: Root, id: nat) {
    && id in s.calls && id in s'.calls && s'.calls == s.calls[id := s'.calls[id]] && s'.calls[id].root == root
    && s'.now == s.now && s'.cache == s.cache
  }

  lemma HearNow(latency: nat, base: Run, run: Run, root: Root, id: nat) returns (longer: Run)
    requires Continues(latency, base, run, root)
    requires var s := Last(run.states); id in s.calls && s.calls[id].root == root && s.calls[id].phase.Asking?
    ensures Continues(latency, base, longer, root)
    ensures var s, s' := Last(run.states), Last(longer.states);
            OnlyMoved(s, s', root, id) && s'.stamps == s.stamps
            && s'.calls[id].phase.Replied? && s'.calls[id].phase.sampledAt == s.now
  {
    longer := run;
    if root !in Last(run.states).chain {
      longer := Continue(latency, base, longer, root, Govern(root, Some(RootState(0, false))));
    }
    longer := Continue(latency, base, longer, root, Sample(id));
  }

  /** A call past a miss can have its answer stamped at once. */
  lemma AnswerNow(latency: nat, base: Run, run: Run, root: Root, id: nat) returns (longer: Run)
    requires Continues(latency, base, run, root)
    requires var s := Last(run.states);
             id in s.calls && InWindow(latency, s, s.calls[id], root) && !s.calls[id].phase.Stamped?
    ensures Continues(latency, base, longer, root)
    ensures var s, s' := Last(run.states), Last(longer.states);
            OnlyMoved(s, s', root, id) && s'.calls[id].phase.Stamped?
            && s'.stamps == s.stamps[root := Asked(s, root) + [s.now]]
  {
    var heard := run;
    if Last(run.states).calls[id].phase.Asking? {
      heard := HearNow(latency, base, run, root, id);
    }
    longer := Continue(latency, base, heard, root, Stamp(id));
  }

  // -- with overlap it does not ---------------------------------------------------------------

  lemma {:induction false} StampsAreListed(latency: nat, run: Run, i: nat, id: nat)
    requires IsRun(latency, run) && i < |run.states|
    requires id in run.states[i].calls && run.states[i].calls[id].phase.Stamped?
    ensures run.states[i].calls[id].phase.entry.fetched in Asked(run.states[i], run.states[i].calls[id].root)
  {
    if i > 0 {
      var s, step, s' := run.states[i - 1], run.steps[i - 1], run.states[i];
      assert Next(latency, s, step, run.states[i - 1 + 1]);
      OthersUnmoved(latency, s, step, id);
      if step == Stamp(id) {
        assert Last(Asked(s', s'.calls[id].root)) == s.now;
      } else {
        StampsAreListed(latency, run, i - 1, id);
      }
    }
  }

  lemma TwiceAtOnce(xs: seq<int>, x: int, y: int)
    requires y in xs && x - y < EPOCH_CACHE_TTL
    ensures !Spaced(xs + [x], EPOCH_CACHE_TTL)
  {
    var i :| 0 <= i < |xs| && xs[i] == y;
    var ys := xs + [x];
    if Spaced(ys, EPOCH_CACHE_TTL) {
      SpacedSpan(ys, EPOCH_CACHE_TTL, i, |xs|);
    }
  }

  lemma {:induction false} Unused(ids: set<nat>) returns (n: nat)
    ensures forall id | id in ids :: id < n
  {
    n := 0;
    if id :| id in ids {
      var above := Unused(ids - {id});
      n := Max(above, id + 1);
      forall other | other in ids ensures other < n {
        assert other == id || other in ids - {id};
      }
    }
  }

  /** Whenever two calls past a miss on one root, among any others, have yet to stamp, both can
      stamp this very second. */
  lemma TwoPendingAskTwice(latency: nat, run: Run, root: Root, a: nat, b: nat) returns (longer: Run)
    requires IsRun(latency, run)
    requires var s := Last(run.states);
             && a in s.calls && b in s.calls && a != b
             && InWindow(latency, s, s.calls[a], root) && InWindow(latency, s, s.calls[b], root)
             && !s.calls[a].phase.Stamped? && !s.calls[b].phase.Stamped?
    ensures Continues(latency, run, longer, root)
    ensures !StampsSpaced(Last(longer.states), root)
  {
    var s := Last(run.states);
    longer := AnswerNow(latency, run, run, root, b);
    longer := AnswerNow(latency, run, longer, root, a);
    TwiceAtOnce(Asked(s, root) + [s.now], s.now, s.now);
  }

  /** Whenever just two calls are past a miss on one root and one has yet to stamp, the run can go on,
      without a second passing and letting no two more in at once, to ask twice in one lifetime.
      When the other has stamped long ago, its late store hides the newer answer from a third. */
  lemma OverlapBreaksSpacing(latency: nat, run: Run, root: Root, a: nat, b: nat) returns (longer: Run)
    requires IsRun(latency, run)
    requires var s := Last(run.states);
             && a in s.calls && b in s.calls && a != b
             && (forall id | id in s.calls :: InWindow(latency, s, s.calls[id], root) <==> id in {a, b})
             && !s.calls[b].phase.Stamped?
    ensures Continues(latency, run, longer, root)
    ensures !StampsSpaced(Last(longer.states), root)
  {
    var s := Last(run.states);
    if !s.calls[a].phase.Stamped? {
      longer := TwoPendingAskTwice(latency, run, root, a, b);
    } else {
      longer := AnswerNow(latency, run, run, root, b);
      var entry := s.calls[a].phase.entry;
      StampsAreListed(latency, run, |run.states| - 1, a);
      if s.now - entry.fetched < EPOCH_CACHE_TTL {
        TwiceAtOnce(Asked(s, root), s.now, entry.fetched);
      } else {
        longer := LateStoreAsksAgain(latency, run, longer, root, a, b);
      }
    }
  }

  lemma LateStoreAsksAgain(latency: nat, base: Run, run: Run, root: Root, a: nat, b: nat) returns (longer: Run)
    requires Continues(latency, base, run, root)
    requires var s := Last(run.states);
             && a in s.calls && b in s.calls && a != b
             && (forall id | id in s.calls :: InWindow(latency, s, s.calls[id], root) <==> id in {a, b})
             && s.calls[a].phase.Stamped? && s.calls[b].phase.Stamped?
             && s.now - s.calls[a].phase.entry.fetched >= EPOCH_CACHE_TTL
             && s.now in Asked(s, root)
    ensures Continues(latency, base, longer, root)
    ensures !StampsSpaced(Last(longer.states), root)
  {
    longer := Continue(latency, base, run, root, Store(b));
    longer := Continue(latency, base, longer, root, Store(a));
    assert WindowEmpty(latency, Last(longer.states), root);
    longer := StaleCacheAsksAgain(latency, base, longer, root);
  }

  /** Asked this very second, and yet the cache has nothing fresh: the next call asks again. */
  lemma StaleCacheAsksAgain(latency: nat, base: Run, run: Run, root: Root) returns (longer: Run)
    requires Continues(latency, base, run, root)
    requires var s := Last(run.states);
             && WindowEmpty(latency, s, root) && FreshEntry(s.cache, root, s.now).None? && s.now in Asked(s, root)
    ensures Continues(latency, base, longer, root)
    ensures !StampsSpaced(Last(longer.states), root)
  {
    var s := Last(run.states);
    var id := Unused(s.calls.Keys);
    longer := Continue(latency, base, run, root, Begin(id, root, 0));
    longer := Continue(latency, base, longer, root, Look(id));
    longer := AnswerNow(latency, base, longer, root, id);
    TwiceAtOnce(Asked(s, root), s.now, s.now);
  }

  /** The first state of a run that is not alone has exactly two calls past a miss, one just in. */
  lemma FirstOverlap(latency: nat, run: Run, j: nat, root: Root) returns (a: nat, b: nat)
    requires IsRun(latency, run) && j < |run.states| && !AskedAlone(latency, run.states[j], root)
    requires forall i | 0 <= i < j :: AskedAlone(latency, run.states[i], root)
    ensures var s := run.states[j];
            && a in s.calls && b in s.calls && a != b
            && (forall id | id in s.calls :: InWindow(latency, s, s.calls[id], root) <==> id in {a, b})
            && s.calls[b].phase.Asking?
  {
    var s' := run.states[j];
    var s, step := run.states[j - 1], run.steps[j - 1];
    assert Next(latency, s, step, run.states[j - 1 + 1]);
    var x, y :| x in s'.calls && y in s'.calls && x != y
                && InWindow(latency, s', s'.calls[x], root) && InWindow(latency, s', s'.calls[y], root);
    EntersByLook(latency, s, step, root, x);
    EntersByLook(latency, s, step, root, y);
    a, b := if step.id == x then y else x, step.id;
    forall id | id in s'.calls && InWindow(latency, s', s'.calls[id], root) ensures id in {a, b} {
      EntersByLook(latency, s, step, root, id);
    }
  }

  lemma SharedState(run: Run, longer: Run, j: nat, i: nat)
    requires Extends(longer, run, j) && i <= j
    ensures i < |longer.states| && longer.states[i] == run.states[i]
  {
    assert longer.states[i] == run.states[..j + 1][i];
  }

  lemma AloneStepOfRun(latency: nat, run: Run, i: nat, root: Root)
    requires IsRun(latency, run) && i < |run.steps| && AskedAlone(latency, run.states[i], root)
    requires Enters(run.states[i], run.steps[i], root) ==> WindowEmpty(latency, run.states[i], root)
    ensures AskedAlone(latency, run.states[i + 1], root)
  {
    assert Next(latency, run.states[i], run.steps[i], run.states[i + 1]);
    AloneStep(latency, run.states[i], run.steps[i], root);
  }

  lemma {:induction false} AloneThroughout(latency: nat, run: Run, longer: Run, j: nat, root: Root, i: nat)
    requires IsRun(latency, run) && IsRun(latency, longer) && Extends(longer, run, j)
    requires forall m | 0 <= m <= j :: AskedAlone(latency, run.states[m], root)
    requires OneAtATime(latency, longer, j, root) && i < |longer.states|
    ensures AskedAlone(latency, longer.states[i], root)
  {
    if i <= j {
      SharedState(run, longer, j, i);
    } else {
      AloneThroughout(latency, run, longer, j, root, i - 1);
      AloneStepOfRun(latency, longer, i - 1, root);
    }
  }

  lemma {:induction false} OverlapCanGoWrong(latency: nat, run: Run, i: nat, root: Root) returns (j: nat, longer: Run)
    requires IsRun(latency, run) && i < |run.states| && !AskedAlone(latency, run.states[i], root)
    ensures j <= i && Extends(longer, run, j) && IsRun(latency, longer) && OneAtATime(latency, longer, j, root)
    ensures !StampsSpaced(Last(longer.states), root)
  {
    if m :| 0 <= m < i && !AskedAlone(latency, run.states[m], root) {
      j, longer := OverlapCanGoWrong(latency, run, m, root);
    } else {
      j := i;
      var a, b := FirstOverlap(latency, run, i, root);
      var prefix := Run(run.states[..i + 1], run.steps[..i]);
      forall k | 0 <= k < |prefix.steps|
        ensures Next(latency, prefix.states[k], prefix.steps[k], prefix.states[k + 1])
      {
        assert Next(latency, run.states[k], run.steps[k], run.states[k + 1]);
      }
      longer := OverlapBreaksSpacing(latency, prefix, root, a, b);
    }
  }

  /** The exact condition. Calls past a miss on a root never overlap in a run if and only if, from
      every moment of it, every way to go on that lets in one more call at a time keeps the
      root's queries a cache lifetime apart. */
  lemma SpacingExactly(latency: nat, run: Run, root: Root)
    requires IsRun(latency, run)
    ensures (forall i | 0 <= i < |run.states| :: AskedAlone(latency, run.states[i], root)) <==>
            (forall j: nat, longer | Extends(longer, run, j) && IsRun(latency, longer)
               && OneAtATime(latency, longer, j, root) :: StampsSpaced(Last(longer.states), root))
  {
    if forall i | 0 <= i < |run.states| :: AskedAlone(latency, run.states[i], root) {
      forall j: nat, longer | Extends(longer, run, j) && IsRun(latency, longer) && OneAtATime(latency, longer, j, root)
        ensures StampsSpaced(Last(longer.states), root)
      {
        forall i | 0 <= i < |longer.states| ensures AskedAlone(latency, longer.states[i], root) {
          AloneThroughout(latency, run, longer, j, root, i);
        }
        SpacedAlways(latency, longer, |longer.states| - 1, root);
      }
    } else {
      var i :| 0 <= i < |run.states| && !AskedAlone(latency, run.states[i], root);
      var j, longer := OverlapCanGoWrong(latency, run, i, root);
    }
  }

  // -- the smallest instance ----------------------------------------------------------------------

  /** Two calls look before either has stored. */
  lemma TwoAsking(latency: nat, root: Root) returns (run: Run)
    ensures IsRun(latency, run) && |run.states| == 5
    ensures Last(run.states) == State(0, map[root := RootState(1, false)], map[], map[], map[],
                                      map[0 := Call(root, 1, 0, Asking), 1 := Call(root, 1, 0, Asking)])
  {
    run := Run([State(0, map[root := RootState(1, false)], map[], map[], map[], map[])], []);
    run := Extend(latency, run, Begin(0, root, 1), 9, map[]);
    run := Extend(latency, run, Begin(1, root, 1), 9, map[]);
    run := Extend(latency, run, Look(0), 9, map[]);
    run := Extend(latency, run, Look(1), 9, map[]);
  }

  /** From nothing, two calls that both look before either stores ask twice in one second. */
  lemma OverlapAsksTwice(latency: nat, root: Root) returns (run: Run)
    ensures IsRun(latency, run) && Asked(Last(run.states), root) == [0, 0]
    ensures |run.states| == 9 && !AskedAlone(latency, run.states[4], root)
  {
    run := TwoAsking(latency, root);
    var s := run.states[4];
    assert InWindow(latency, s, s.calls[0], root) && InWindow(latency, s, s.calls[1], root);
    run := Extend(latency, run, Sample(0), 9, map[]);
    run := Extend(latency, run, Sample(1), 9, map[]);
    run := Extend(latency, run, Stamp(0), 9, map[]);
    run := Extend(latency, run, Stamp(1), 9, map[]);
  }
}
