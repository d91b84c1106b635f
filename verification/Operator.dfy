/** operator.SignTx and GasFreeFor, and the account sequence they share across callers. */
module Operator {
  import opened Prelude

  /** Messages, as far as the fee route cares: a delegated wrapper is judged by its inner one. */
  datatype Msg = Delegated(inner: Msg) | Plain(typeURL: string, body: Bytes)

  function UnwrapDelegated(m: Msg): Msg {
    if m.Delegated? then m.inner else m
  }

  function Unwrapped(msgs: seq<Msg>): seq<Msg> {
    seq(|msgs|, i requires 0 <= i < |msgs| => UnwrapDelegated(msgs[i]))
  }

  /** The chain client's own test for the gas-free route, which is not part of this model. */
  type ShortTermClob = seq<Msg> -> bool

  method GasFreeFor(isShortTermClob: ShortTermClob, msgs: seq<Msg>) returns (gasFree: bool)
    ensures gasFree == isShortTermClob(Unwrapped(msgs))
    ensures forall u: seq<Msg> | |u| == |msgs|
              && (forall i :: 0 <= i < |msgs| ==> u[i] == if msgs[i].Delegated? then msgs[i].inner else msgs[i]) ::
              gasFree == isShortTermClob(u)
    ensures |msgs| == 1 && msgs[0].Delegated? ==> gasFree == isShortTermClob([msgs[0].inner])
  {
    var unwrapped: seq<Msg> := [];
    for i := 0 to |msgs|
      invariant unwrapped == Unwrapped(msgs[..i])
    {
      unwrapped := unwrapped + [UnwrapDelegated(msgs[i])];
    }
    assert msgs[..|msgs|] == msgs;
    if |msgs| == 1 && msgs[0].Delegated? {
      assert Unwrapped(msgs) == [msgs[0].inner];
    }
    assert forall u: seq<Msg> | |u| == |msgs|
             && (forall i :: 0 <= i < |msgs| ==> u[i] == if msgs[i].Delegated? then msgs[i].inner else msgs[i]) ::
             u == Unwrapped(msgs);
    gasFree := isShortTermClob(unwrapped);
  }

  datatype FeeCoin = FeeCoin(denom: string, amount: int)
  datatype FeeSpec = FeeSpec(denom: string, amount: string, gasLimit: nat)

  /** The signed transaction's parts that its callers depend on. */
  datatype Tx = Tx(msgs: seq<Msg>, sequence: nat, fee: seq<FeeCoin>, gasLimit: nat)

  datatype SignError =
    | NoMessages
    | Unpackable(index: nat)
    | BodyNotMarshalled
    | BadFee
    | KeyNotPacked
    | NotAssembled

  /** Packing, marshalling, the integer parser and the key come from the chain's libraries, and
      each step may fail on its own. assembles covers what is left once the fee is
      known: marshalling AuthInfo, the sign bytes, the signature and marshalling the result. */
  datatype Codec = Codec(
    packs: Msg -> bool,
    marshalsBody: seq<Msg> -> bool,
    parseInt: string -> Option<int>,
    packsKey: bool,
    assembles: Tx -> bool)

  /** The fee a transaction declares: none when it rides gas-free, or when none is configured. */
  function FeeCoins(denom: string, amount: int, gasFree: bool): seq<FeeCoin> {
    if gasFree || amount == 0 then [] else [FeeCoin(denom, amount)]
  }

  /** The transaction these arguments ask for. */
  function Unsigned(codec: Codec, sequence: nat, msgs: seq<Msg>, fee: FeeSpec, gasFree: bool): Tx
    requires gasFree || codec.parseInt(fee.amount).Some?
  {
    var amount := if gasFree then 0 else codec.parseInt(fee.amount).value;
    Tx(msgs, sequence, FeeCoins(fee.denom, amount, gasFree), fee.gasLimit)
  }

  method SignTx(codec: Codec, sequence: nat, msgs: seq<Msg>, fee: FeeSpec, gasFree: bool)
    returns (r: Result<Tx, SignError>)
    ensures r.Success? <==>
            && msgs != [] && (forall m | m in msgs :: codec.packs(m)) && codec.marshalsBody(msgs)
            && (gasFree || codec.parseInt(fee.amount).Some?) && codec.packsKey
            && codec.assembles(Unsigned(codec, sequence, msgs, fee, gasFree))
    ensures r.Success? ==> r.value.msgs == msgs && r.value.sequence == sequence && r.value.gasLimit == fee.gasLimit
    ensures r.Success? && gasFree ==> r.value.fee == []
    ensures r.Success? && !gasFree ==>
              var n := codec.parseInt(fee.amount).value;
              r.value.fee == if n == 0 then [] else [FeeCoin(fee.denom, n)]
    ensures r == Failure(BadFee) ==> !gasFree && codec.parseInt(fee.amount).None?
  {
    if |msgs| == 0 {
      return Failure(NoMessages);
    }
    var anys: seq<Msg> := [];
    var i := 0;
    while i < |msgs|
      invariant 0 <= i <= |msgs|
      invariant anys == msgs[..i]
      invariant forall m | m in msgs[..i] :: codec.packs(m)
    {
      if !codec.packs(msgs[i]) {
        return Failure(Unpackable(i));
      }
      anys := anys + [msgs[i]];
      i := i + 1;
    }
    assert anys == msgs;
    if !codec.marshalsBody(anys) {
      return Failure(BodyNotMarshalled);
    }
    var feeCoins: seq<FeeCoin> := [];
    if !gasFree {
      var amt := codec.parseInt(fee.amount);
      if amt.None? {
        return Failure(BadFee);
      }
      if amt.value != 0 {
        feeCoins := [FeeCoin(fee.denom, amt.value)];
      }
    }
    if !codec.packsKey {
      return Failure(KeyNotPacked);
    }
    var tx := Tx(anys, sequence, feeCoins, fee.gasLimit);
    if !codec.assembles(tx) {
      return Failure(NotAssembled);
    }
    return Success(tx);
  }
}

/** Any number of concurrent execute and signAndBroadcastOwn calls over one operator account. */
module SequenceMachine {
  import opened Prelude
  import opened Operator

  /** gasFree is decided once, before the lock; an own transaction is never gas-free. */
  datatype Phase =
    | Ready(gasFree: bool)
    | Entered(gasFree: bool)
    | Read(gasFree: bool, sequence: nat)
    | Signed(gasFree: bool, sequence: nat, fee: seq<FeeCoin>)
    | Done

  /** What became of a broadcast: the node's verdict, or an error that says nothing about it. */
  datatype Outcome = Landed | Rejected | LostBefore | LostAfter

  /** The configured fee. */
  datatype Fee = Fee(denom: string, amount: int)

  /** One broadcast, with the chain's sequence when it arrived and whether its sender held the lock. */
  datatype Sent = Sent(sequence: nat, gasFree: bool, fee: seq<FeeCoin>, expected: nat, locked: bool, accepted: bool)

  datatype State = State(
    sequence: nat,
    lock: Option<nat>,
    calls: map<nat, Phase>,
    sent: seq<Sent>)

  datatype Step =
    | Begin(id: nat, gasFree: bool)
    | Enter(id: nat)
    | ReadAccount(id: nat)
    | Fail(id: nat)
    | Sign(id: nat)
    | Broadcast(id: nat, outcome: Outcome)

  predicate Accepted(outcome: Outcome) {
    outcome.Landed? || outcome.LostAfter?
  }

  /** The chain accepts a sequence-consuming transaction only at its own sequence. Nobody else
      uses the account, and an accepted transaction is visible to the next read. */
  predicate Enabled(s: State, step: Step) {
    match step
    case Begin(id, _) => id !in s.calls
    case Enter(id) => id in s.calls && s.calls[id].Ready? && (s.calls[id].gasFree || s.lock == None)
    case ReadAccount(id) => id in s.calls && s.calls[id].Entered?
    case Fail(id) => id in s.calls && (s.calls[id].Entered? || s.calls[id].Read?)
    case Sign(id) => id in s.calls && s.calls[id].Read?
    case Broadcast(id, outcome) =>
      id in s.calls && s.calls[id].Signed?
      && (!s.calls[id].gasFree && Accepted(outcome) ==> s.calls[id].sequence == s.sequence)
  }

  function Leave(s: State, id: nat): State
    requires id in s.calls && !s.calls[id].Done?
  {
    s.(calls := s.calls[id := Done], lock := if s.calls[id].gasFree then s.lock else None)
  }

  function Apply(fee: Fee, s: State, step: Step): State
    requires Enabled(s, step)
  {
    match step
    case Begin(id, gasFree) => s.(calls := s.calls[id := Ready(gasFree)])
    case Enter(id) =>
      s.(calls := s.calls[id := Entered(s.calls[id].gasFree)],
         lock := if s.calls[id].gasFree then s.lock else Some(id))
    case ReadAccount(id) => s.(calls := s.calls[id := Read(s.calls[id].gasFree, s.sequence)])
    case Fail(id) => Leave(s, id)
    case Sign(id) => s.(calls := s.calls[id := Signed(s.calls[id].gasFree, s.calls[id].sequence,
                                                              FeeCoins(fee.denom, fee.amount, s.calls[id].gasFree))])
    case Broadcast(id, outcome) =>
      var call := s.calls[id];
      var event := Sent(call.sequence, call.gasFree, call.fee, s.sequence, s.lock == Some(id), Accepted(outcome));
      Leave(s, id).(
        sequence := if !call.gasFree && Accepted(outcome) then s.sequence + 1 else s.sequence,
        sent := s.sent + [event])
  }

  predicate Next(fee: Fee, s: State, step: Step, s': State) {
    Enabled(s, step) && s' == Apply(fee, s, step)
  }

  datatype Run = Run(states: seq<State>, steps: seq<Step>)

  predicate Initial(s: State) {
    s.lock == None && s.calls == map[] && s.sent == []
  }

  predicate IsRun(fee: Fee, run: Run) {
    && |run.states| == |run.steps| + 1
    && Initial(run.states[0])
    && forall i | 0 <= i < |run.steps| :: Next(fee, run.states[i], run.steps[i], run.states[i + 1])
  }

  // -- what every state keeps ---------------------------------------------------------------

  predicate Inside(phase: Phase) {
    phase.Entered? || phase.Read? || phase.Signed?
  }

  predicate CallOk(fee: Fee, s: State, id: nat)
    requires id in s.calls
  {
    var phase := s.calls[id];
    && (s.lock == Some(id) <==> Inside(phase) && !phase.gasFree)
    && (phase.Read? || phase.Signed? ==> phase.gasFree || phase.sequence == s.sequence)
    && (phase.Signed? ==> phase.fee == FeeCoins(fee.denom, fee.amount, phase.gasFree))
  }

  /** The sequences of the accepted fee-paying transactions, in order. */
  function Consumed(sent: seq<Sent>): seq<nat> {
    if sent == [] then []
    else
      var front := Consumed(sent[..|sent| - 1]);
      if !Last(sent).gasFree && Last(sent).accepted then front + [Last(sent).sequence] else front
  }

  predicate SentOk(fee: Fee, e: Sent) {
    && (!e.gasFree ==> e.sequence == e.expected)
    && (e.locked <==> !e.gasFree)
    && e.fee == FeeCoins(fee.denom, fee.amount, !e.locked)
  }

  ghost predicate Consecutive(first: nat, xs: seq<nat>) {
    forall i | 0 <= i < |xs| :: xs[i] == first + i
  }

  ghost predicate Serial(fee: Fee, first: nat, s: State) {
    && (s.lock.Some? ==> s.lock.value in s.calls)
    && (forall id | id in s.calls :: CallOk(fee, s, id))
    && (forall i | 0 <= i < |s.sent| :: SentOk(fee, s.sent[i]))
    && Consecutive(first, Consumed(s.sent))
    && s.sequence == first + |Consumed(s.sent)|
  }

  lemma CallOkStep(fee: Fee, first: nat, s: State, step: Step, id: nat)
    requires Serial(fee, first, s) && Enabled(s, step) && id in Apply(fee, s, step).calls
    ensures CallOk(fee, Apply(fee, s, step), id)
  {
    if id in s.calls {
      assert CallOk(fee, s, id);
    }
    if step.id in s.calls {
      assert CallOk(fee, s, step.id);
    }
  }

  lemma SerialStep(fee: Fee, first: nat, s: State, step: Step)
    requires Serial(fee, first, s) && Enabled(s, step)
    ensures Serial(fee, first, Apply(fee, s, step))
  {
    var s' := Apply(fee, s, step);
    forall id | id in s'.calls ensures CallOk(fee, s', id) {
      CallOkStep(fee, first, s, step, id);
    }
    if step.Broadcast? {
      assert CallOk(fee, s, step.id);
      assert s'.sent[..|s'.sent| - 1] == s.sent;
      forall i | 0 <= i < |s'.sent| ensures SentOk(fee, s'.sent[i]) {
        if i < |s.sent| {
          assert SentOk(fee, s.sent[i]);
        }
      }
    }
  }

  lemma {:induction false} SerialAlways(fee: Fee, run: Run, i: nat)
    requires IsRun(fee, run) && i < |run.states|
    ensures Serial(fee, run.states[0].sequence, run.states[i])
  {
    if i > 0 {
      SerialAlways(fee, run, i - 1);
      assert Next(fee, run.states[i - 1], run.steps[i - 1], run.states[i - 1 + 1]);
      SerialStep(fee, run.states[0].sequence, run.states[i - 1], run.steps[i - 1]);
    }
  }

  /** Over every interleaving, with any broadcast lost either way: each fee-paying transaction
      arrives carrying exactly the chain's sequence, sent under the lock; the accepted ones use
      consecutive sequences from the first on, whatever gas-free ones do in between. Holding the
      lock and declaring the fee always go together. */
  lemma FeePayingNeverRace(fee: Fee, run: Run, i: nat, e: Sent)
    requires IsRun(fee, run) && i < |run.states| && e in run.states[i].sent
    ensures !e.gasFree ==> e.sequence == e.expected
    ensures e.locked <==> !e.gasFree
    ensures fee.amount != 0 ==> (e.fee == [FeeCoin(fee.denom, fee.amount)] <==> e.locked)
    ensures !e.locked || fee.amount == 0 ==> e.fee == []
    ensures Consecutive(run.states[0].sequence, Consumed(run.states[i].sent))
    ensures run.states[i].sequence == run.states[0].sequence + |Consumed(run.states[i].sent)|
  {
    SerialAlways(fee, run, i);
    assert SentOk(fee, e);
  }

  predicate UsesSequence(e: Sent) {
    !e.gasFree && e.accepted
  }

  /** Accepted fee-paying transactions use rising sequences, all of them below the chain's own. */
  predicate Rising(s: State) {
    && (forall a | 0 <= a < |s.sent| :: UsesSequence(s.sent[a]) ==> s.sent[a].sequence < s.sequence)
    && (forall a, b | 0 <= a < b < |s.sent| ::
          UsesSequence(s.sent[a]) && UsesSequence(s.sent[b]) ==> s.sent[a].sequence < s.sent[b].sequence)
  }

  /** No two accepted fee-paying transactions ever share a sequence: each uses one above all that
      went before, whatever gas-free transactions and lost replies there were in between. */
  lemma {:induction false} SequencesRise(fee: Fee, run: Run, i: nat)
    requires IsRun(fee, run) && i < |run.states|
    ensures Rising(run.states[i])
  {
    if i > 0 {
      var s, step := run.states[i - 1], run.steps[i - 1];
      SequencesRise(fee, run, i - 1);
      assert Next(fee, s, step, run.states[i - 1 + 1]);
      if step.Broadcast? {
        assert run.states[i].sent[..|s.sent|] == s.sent;
      }
    }
  }

  /** The lock is held exactly while some fee-paying call is between entering and leaving: every
      way out, error or not, gives it back. */
  lemma LockHeldExactlyInside(fee: Fee, run: Run, i: nat)
    requires IsRun(fee, run) && i < |run.states|
    ensures run.states[i].lock == None <==>
            forall id | id in run.states[i].calls ::
              Inside(run.states[i].calls[id]) ==> run.states[i].calls[id].gasFree
  {
    SerialAlways(fee, run, i);
    var s := run.states[i];
    assert forall id | id in s.calls :: CallOk(fee, s, id);
    if s.lock.Some? {
      assert CallOk(fee, s, s.lock.value);
    }
  }

  lemma Extend(fee: Fee, run: Run, step: Step) returns (longer: Run)
    requires IsRun(fee, run) && Enabled(Last(run.states), step)
    ensures IsRun(fee, longer) && longer.states == run.states + [Apply(fee, Last(run.states), step)]
  {
    longer := Run(run.states + [Apply(fee, Last(run.states), step)], run.steps + [step]);
    forall i | 0 <= i < |longer.steps| ensures Next(fee, longer.states[i], longer.steps[i], longer.states[i + 1]) {
      if i < |run.steps| {
        assert Next(fee, run.states[i], run.steps[i], run.states[i + 1]);
      }
    }
  }

  /** The exemption is real: without the lock a gas-free transaction may arrive with a sequence
      the chain has already left behind. */
  lemma GasFreeMayBeStale(fee: Fee) returns (run: Run)
    ensures IsRun(fee, run)
    ensures Sent(5, true, [], 6, false, true) in Last(run.states).sent
  {
    run := Run([State(5, None, map[], [])], []);
    run := Extend(fee, run, Begin(0, true));
    run := Extend(fee, run, Enter(0));
    run := Extend(fee, run, ReadAccount(0));
    run := Extend(fee, run, Begin(1, false));
    run := Extend(fee, run, Enter(1));
    run := Extend(fee, run, ReadAccount(1));
    run := Extend(fee, run, Sign(1));
    run := Extend(fee, run, Broadcast(1, Landed));
    run := Extend(fee, run, Sign(0));
    run := Extend(fee, run, Broadcast(0, Landed));
    assert Last(Last(run.states).sent) == Sent(5, true, [], 6, false, true);
  }
}
