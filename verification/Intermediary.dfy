/** intermediary.Service.Forward: verify, check the right to pass on, charge, mint, send. */
module Intermediary {
  import opened Prelude
  import opened Caveats
  import opened Svpdt
  import opened Verification
  import opened CoinText
  import opened Text
  import opened Narrowing
  import opened Settlement
  import Base64
  import Decimal

  /** The wiring: this agent's id and key, the verifier, and the recorder when there is one.
      The recorder is the same service as the verifier. */
  datatype Config = Config(agentID: string, sign: Signer, verifier: Verifier, recorder: Option<SettlementModule>)

  datatype ForwardInput = ForwardInput(
    proof: seq<string>,
    downstreamDID: string,
    downstreamEndpoint: string,
    envelope: Bytes,
    narrow: NarrowSpec,
    fee: Option<WireCoin>)

  datatype Reply = Reply(taskID: string, state: string, response: string)

  /** What the outside world answers during one run, in the order it is asked. Verifying and
      recording each read their own ceilings and clock, and minting reads the clock again. */
  datatype World = World(
    verifyParams: Option<Params>, verifyNow: int64,
    recordParams: Option<Params>, recordNow: int64, executed: bool,
    mintNow: int64,
    nonce: Option<Bytes>,
    reply: Option<Reply>)

  datatype Effect =
    | Record(proof: seq<string>, fee: WireCoin, outcome: Result<MsgRecordSpend, RecordError>)
    | Send(endpoint: string, envelope: Bytes, tokens: seq<string>, reply: Option<Reply>)

  datatype ForwardError =
    | MissingDownstream
    | MissingEnvelope
    | Inbound(proofError: ProofError)
    | NotRedelegable
    | TargetNotAllowed
    | NoRecorder
    | FeeNotRecorded(recordError: RecordError)
    | NotNarrowed(narrowError: NarrowError)
    | NoNonce
    | NotAttenuated
    | NotDelivered

  datatype Grant = Grant(
    actions: set<string>, subaccounts: set<uint32>, budget: seq<WireCoin>, svcBudget: seq<WireCoin>,
    settlement: string, expires: int64, redelegable: bool)

  datatype ForwardOutput = ForwardOutput(
    principal: string, depth: nat, childGrant: Grant, recorded: Option<WireCoin>, reply: Reply)

  function GrantView(c: Caveats): Grant {
    Grant(c.actions, c.subaccounts, Views(c.budget), Views(c.svcBudget), c.settlement, c.expires, c.redelegable)
  }

  /** Coins on the wire, one for each coin, in order. */
  ghost predicate PrintedCoins(ws: seq<WireCoin>, cs: Coins) {
    && |ws| == |cs|
    && forall i :: 0 <= i < |ws| ==> ws[i].denom == cs[i].denom && Decimal.ParseInt(ws[i].amount) == Some(cs[i].amount)
  }

  /** Every field of a reported grant is the same field of the caveats. */
  ghost predicate Describes(g: Grant, c: Caveats) {
    && g.actions == c.actions && g.subaccounts == c.subaccounts
    && PrintedCoins(g.budget, c.budget) && PrintedCoins(g.svcBudget, c.svcBudget)
    && g.settlement == c.settlement && g.expires == c.expires && g.redelegable == c.redelegable
  }

  lemma GrantViewDescribes(c: Caveats)
    ensures Describes(GrantView(c), c)
  {
    forall i: nat | i < |c.budget| ensures Decimal.ParseInt(Views(c.budget)[i].amount) == Some(c.budget[i].amount) {
      ViewsNameEachCoin(c.budget, i);
    }
    forall i: nat | i < |c.svcBudget|
      ensures Decimal.ParseInt(Views(c.svcBudget)[i].amount) == Some(c.svcBudget[i].amount)
    {
      ViewsNameEachCoin(c.svcBudget, i);
    }
  }

  method ViewGrant(c: Caveats) returns (g: Grant)
    ensures g == GrantView(c) && Describes(g, c)
  {
    GrantViewDescribes(c);
    var budget := CoinsView(c.budget);
    var svcBudget := CoinsView(c.svcBudget);
    g := Grant(c.actions, c.subaccounts, budget, svcBudget, c.settlement, c.expires, c.redelegable);
  }

  /** A whole run: what it did to the outside, and what it answered. */
  datatype Run = Run(effects: seq<Effect>, result: Result<ForwardOutput, ForwardError>)

  function RecordAttempt(cfg: Config, input: ForwardInput, w: World): Effect
    requires input.fee.Some? && cfg.recorder.Some?
  {
    Record(input.proof, input.fee.value,
           Recorded(cfg.recorder.value, cfg.verifier, w.recordParams, w.recordNow, input.proof,
                    RecordParams("", input.fee.value), w.executed))
  }

  /** The child minted under the leaf of an accepted chain. */
  function Mint(cfg: Config, input: ForwardInput, w: World, accepted: Accepted): Result<(Token, Bytes), ForwardError>
    requires accepted.raw != [] && accepted.verified.tokens != []
  {
    match Narrowed(cfg.verifier.lib, Last(accepted.verified.tokens).payload.caveats, input.narrow, w.mintNow)
    case Failure(e) => Failure(NotNarrowed(e))
    case Success(caveats) =>
      if w.nonce.None? then Failure(NoNonce)
      else match Attenuate(cfg.verifier.lib, cfg.sign, Last(accepted.raw), cfg.agentID,
                           TrimSpace(input.downstreamDID), caveats, w.nonce.value)
           case None => Failure(NotAttenuated)
           case Some(minted) => Success(minted)
  }

  /** From minting on; done is what has already happened. */
  function MintAndSend(cfg: Config, input: ForwardInput, w: World, accepted: Accepted, done: seq<Effect>): Run
    requires accepted.raw != [] && accepted.verified.tokens != []
  {
    match Mint(cfg, input, w, accepted)
    case Failure(e) => Run(done, Failure(e))
    case Success(minted) =>
      var tokens := input.proof + [Base64.Encode(minted.1)];
      var effects := done + [Send(input.downstreamEndpoint, input.envelope, tokens, w.reply)];
      if w.reply.None? then Run(effects, Failure(NotDelivered))
      else Run(effects, Success(ForwardOutput(accepted.verified.principal, |tokens|,
                                              GrantView(minted.0.payload.caveats), input.fee, w.reply.value)))
  }

  /** From the inbound chain's acceptance on. */
  function ChargeMintAndSend(cfg: Config, input: ForwardInput, w: World, accepted: Accepted): Run
    requires accepted.raw != [] && accepted.verified.tokens != []
  {
    var leaf := Last(accepted.verified.tokens).payload.caveats;
    if !leaf.redelegable then Run([], Failure(NotRedelegable))
    else if !leaf.redelegateTo.Allows(input.downstreamDID) then Run([], Failure(TargetNotAllowed))
    else if input.fee.None? then MintAndSend(cfg, input, w, accepted, [])
    else if cfg.recorder.None? then Run([], Failure(NoRecorder))
    else
      var attempt := RecordAttempt(cfg, input, w);
      if attempt.outcome.Failure? then Run([attempt], Failure(FeeNotRecorded(attempt.outcome.error)))
      else MintAndSend(cfg, input, w, accepted, [attempt])
  }

  function Forwarding(cfg: Config, input: ForwardInput, w: World): Run {
    VerdictMeans(cfg.verifier, w.verifyParams, w.verifyNow, input.proof);
    if TrimSpace(input.downstreamDID) == "" || TrimSpace(input.downstreamEndpoint) == ""
    then Run([], Failure(MissingDownstream))
    else if input.envelope == [] then Run([], Failure(MissingEnvelope))
    else match Verdict(cfg.verifier, w.verifyParams, w.verifyNow, input.proof)
         case Failure(e) => Run([], Failure(Inbound(e)))
         case Success(accepted) => ChargeMintAndSend(cfg, input, w, accepted)
  }

  class Service {
    const cfg: Config
    /** Everything this agent has done to the outside, in order. */
    var effects: seq<Effect>

    constructor (cfg: Config)
      ensures this.cfg == cfg && effects == []
    {
      this.cfg := cfg;
      effects := [];
    }

    /** From step 2 of a run on: the right to pass on, the fee, the child, the send. */
    method PassOn(input: ForwardInput, w: World, accepted: Accepted) returns (r: Result<ForwardOutput, ForwardError>)
      requires accepted.raw != [] && accepted.verified.tokens != []
      modifies this`effects
      ensures effects == old(effects) + ChargeMintAndSend(cfg, input, w, accepted).effects
      ensures r == ChargeMintAndSend(cfg, input, w, accepted).result
    {
      var leaf := Last(accepted.verified.tokens);
      if !leaf.payload.caveats.redelegable {
        return Failure(NotRedelegable);
      }
      if !leaf.payload.caveats.redelegateTo.Allows(input.downstreamDID) {
        return Failure(TargetNotAllowed);
      }

      var recorded: Option<WireCoin> := None;
      if input.fee.Some? {
        if cfg.recorder.None? {
          return Failure(NoRecorder);
        }
        var outcome := ExecuteRecordSpend(cfg.recorder.value, cfg.verifier, w.recordParams, w.recordNow,
                                          input.proof, RecordParams("", input.fee.value), w.executed);
        effects := effects + [Record(input.proof, input.fee.value, outcome)];
        if outcome.Failure? {
          return Failure(FeeNotRecorded(outcome.error));
        }
        recorded := Some(input.fee.value);
      }
      ghost var charged := effects[|old(effects)|..];
      assert effects == old(effects) + charged;
      assert ChargeMintAndSend(cfg, input, w, accepted) == MintAndSend(cfg, input, w, accepted, charged);

      var childCaveats := Narrow(cfg.verifier.lib, leaf.payload.caveats, input.narrow, w.mintNow);
      if childCaveats.Failure? {
        return Failure(NotNarrowed(childCaveats.error));
      }
      if w.nonce.None? {
        return Failure(NoNonce);
      }
      var minted := Attenuate(cfg.verifier.lib, cfg.sign, Last(accepted.raw), cfg.agentID,
                              TrimSpace(input.downstreamDID), childCaveats.value, w.nonce.value);
      if minted.None? {
        return Failure(NotAttenuated);
      }
      var (child, encoded) := minted.value;

      var forwarded := input.proof;
      forwarded := forwarded + [Base64.Encode(encoded)];
      effects := effects + [Send(input.downstreamEndpoint, input.envelope, forwarded, w.reply)];
      if w.reply.None? {
        return Failure(NotDelivered);
      }
      var grant := ViewGrant(child.payload.caveats);
      return Success(ForwardOutput(accepted.verified.principal, |forwarded|, grant, recorded, w.reply.value));
    }

    method Forward(input: ForwardInput, w: World) returns (r: Result<ForwardOutput, ForwardError>)
      modifies this`effects
      ensures effects == old(effects) + Forwarding(cfg, input, w).effects
      ensures r == Forwarding(cfg, input, w).result
    {
      VerdictMeans(cfg.verifier, w.verifyParams, w.verifyNow, input.proof);
      if TrimSpace(input.downstreamDID) == "" || TrimSpace(input.downstreamEndpoint) == "" {
        return Failure(MissingDownstream);
      }
      if |input.envelope| == 0 {
        return Failure(MissingEnvelope);
      }
      var inbound := VerifyProof(cfg.verifier, w.verifyParams, w.verifyNow, input.proof);
      if inbound.Failure? {
        return Failure(Inbound(inbound.error));
      }
      r := PassOn(input, w, inbound.value);
    }
  }
}
