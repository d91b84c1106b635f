/** What every run of Forward does, and what becomes of the chain it sends. */
module Forwards {
  import opened Prelude
  import opened Caveats
  import opened Svpdt
  import opened Verification
  import opened CoinText
  import opened Text
  import opened Narrowing
  import opened Settlement
  import opened Intermediary
  import Base64
  import Chains

  ghost predicate Sent(run: Run) {
    run.effects != [] && Last(run.effects).Send?
  }

  // -- when a run sends -------------------------------------------------------------

  /** The request is complete and its credential is accepted, re-delegable, and lets this
      downstream be named (as the caller spelled it). */
  ghost predicate MayCharge(cfg: Config, input: ForwardInput, w: World) {
    && TrimSpace(input.downstreamDID) != "" && TrimSpace(input.downstreamEndpoint) != ""
    && input.envelope != []
    && w.verifyParams.Some? && Accepts(cfg.verifier, w.verifyParams.value, w.verifyNow, input.proof)
    && var leaf := Last(Tokens(cfg.verifier.lib, DecodeAll(input.proof))).payload.caveats;
       leaf.redelegable && (leaf.redelegateTo.Anyone? || input.downstreamDID in leaf.redelegateTo.dids)
  }

  ghost predicate FeePaid(cfg: Config, input: ForwardInput, w: World) {
    input.fee.Some? ==> cfg.recorder.Some? && RecordAttempt(cfg, input, w).outcome.Success?
  }

  /** The child can be signed: a nonce, an allowed audience (trimmed), nothing named too wide. */
  ghost predicate Mintable(cfg: Config, input: ForwardInput, w: World)
    requires MayCharge(cfg, input, w)
  {
    var leaf := Last(Tokens(cfg.verifier.lib, DecodeAll(input.proof))).payload.caveats;
    && w.nonce.Some?
    && (leaf.redelegateTo.Anyone? || TrimSpace(input.downstreamDID) in leaf.redelegateTo.dids)
    && NamesSubset(cfg.verifier.lib, leaf, input.narrow)
  }

  lemma MintsExactlyWhen(cfg: Config, input: ForwardInput, w: World, accepted: Accepted)
    requires BuildsWhatItIsGiven(cfg.verifier.lib)
    requires accepted.raw != [] && Parses(cfg.verifier.lib, accepted.raw)
    requires accepted.verified == Summary(cfg.verifier.lib, accepted.raw)
    ensures var leaf := Last(accepted.verified.tokens).payload.caveats;
            Mint(cfg, input, w, accepted).Success? <==>
            && w.nonce.Some?
            && leaf.redelegateTo.Allows(TrimSpace(input.downstreamDID))
            && NamesSubset(cfg.verifier.lib, leaf, input.narrow)
  {
    var leaf := Last(accepted.verified.tokens).payload.caveats;
    NarrowedWithin(cfg.verifier.lib, leaf, input.narrow, w.mintNow);
  }

  lemma ReachesCharging(cfg: Config, input: ForwardInput, w: World)
    ensures MayCharge(cfg, input, w) ==>
              var raw := DecodeAll(input.proof);
              var accepted := Accepted(raw, Summary(cfg.verifier.lib, raw));
              Forwarding(cfg, input, w) == ChargeMintAndSend(cfg, input, w, accepted)
    ensures !MayCharge(cfg, input, w) ==> Forwarding(cfg, input, w).effects == []
                                          && Forwarding(cfg, input, w).result.Failure?
  {
    VerdictMeans(cfg.verifier, w.verifyParams, w.verifyNow, input.proof);
  }

  /** What a run may have done before minting: the one attempt to record its fee. */
  ghost function FeeAttempt(cfg: Config, input: ForwardInput, w: World): seq<Effect> {
    if input.fee.Some? && cfg.recorder.Some? then [RecordAttempt(cfg, input, w)] else []
  }

  /** From an accepted chain on, sending takes the right to pass on, a paid fee and a minted child. */
  lemma SendsOnceAccepted(cfg: Config, input: ForwardInput, w: World, accepted: Accepted)
    requires accepted.raw != [] && accepted.verified.tokens != []
    ensures var leaf := Last(accepted.verified.tokens).payload.caveats;
            var run := ChargeMintAndSend(cfg, input, w, accepted);
            && (Sent(run) <==>
                  && leaf.redelegable && leaf.redelegateTo.Allows(input.downstreamDID)
                  && FeePaid(cfg, input, w)
                  && Mint(cfg, input, w, accepted).Success?)
            && (Sent(run) ==>
                  Last(run.effects).tokens == input.proof + [Base64.Encode(Mint(cfg, input, w, accepted).value.1)])
  {
    SendsOnceMinted(cfg, input, w, accepted, FeeAttempt(cfg, input, w));
  }

  /** From the fee on, sending takes a minted child. */
  lemma SendsOnceMinted(cfg: Config, input: ForwardInput, w: World, accepted: Accepted, done: seq<Effect>)
    requires accepted.raw != [] && accepted.verified.tokens != []
    requires forall e | e in done :: e.Record?
    ensures var run := MintAndSend(cfg, input, w, accepted, done);
            && (Sent(run) <==> Mint(cfg, input, w, accepted).Success?)
            && (Sent(run) ==>
                  Last(run.effects).tokens == input.proof + [Base64.Encode(Mint(cfg, input, w, accepted).value.1)])
  {
    assert done != [] ==> Last(done) in done;
  }

  /** A run sends exactly when the request may be charged for, its fee (if any) was recorded
      without error, and the child can be signed. */
  lemma SendsExactlyWhen(cfg: Config, input: ForwardInput, w: World)
    requires BuildsWhatItIsGiven(cfg.verifier.lib)
    ensures Sent(Forwarding(cfg, input, w)) <==>
            MayCharge(cfg, input, w) && FeePaid(cfg, input, w) && Mintable(cfg, input, w)
  {
    ReachesCharging(cfg, input, w);
    if MayCharge(cfg, input, w) {
      var raw := DecodeAll(input.proof);
      var accepted := Accepted(raw, Summary(cfg.verifier.lib, raw));
      MintsExactlyWhen(cfg, input, w, accepted);
      SendsOnceAccepted(cfg, input, w, accepted);
    }
  }

  lemma MintAndSendEffects(cfg: Config, input: ForwardInput, w: World, accepted: Accepted, done: seq<Effect>)
    requires accepted.raw != [] && accepted.verified.tokens != []
    ensures var run := MintAndSend(cfg, input, w, accepted, done);
            if run.effects == done then run.result.Failure? && run.result != Failure(NotDelivered)
            else
              && |run.effects| == |done| + 1 && run.effects[..|done|] == done
              && Last(run.effects).Send?
              && Last(run.effects).endpoint == input.downstreamEndpoint
              && Last(run.effects).envelope == input.envelope
              && (run.result.Success? <==> Last(run.effects).reply.Some?)
              && (run.result == Failure(NotDelivered) <==> Last(run.effects).reply.None?)
  {}

  ghost predicate Ordered(run: Run, records: seq<Effect>, input: ForwardInput) {
    && (Sent(run) ==>
          && |run.effects| == |records| + 1
          && run.effects[..|records|] == records
          && (forall e | e in records :: e.Record? && e.outcome.Success?)
          && Last(run.effects).endpoint == input.downstreamEndpoint
          && Last(run.effects).envelope == input.envelope)
    && (!Sent(run) ==> run.effects == [] || (run.effects == records && run.result.Failure?))
    && (run.result.Success? <==> Sent(run) && Last(run.effects).reply.Some?)
    && (run.result == Failure(NotDelivered) <==> Sent(run) && Last(run.effects).reply.None?)
  }

  lemma OrderedOnceAccepted(cfg: Config, input: ForwardInput, w: World, accepted: Accepted)
    requires accepted.raw != [] && accepted.verified.tokens != []
    ensures Ordered(ChargeMintAndSend(cfg, input, w, accepted), FeeAttempt(cfg, input, w), input)
  {
    MintAndSendEffects(cfg, input, w, accepted, FeeAttempt(cfg, input, w));
    MintAndSendEffects(cfg, input, w, accepted, []);
  }

  /** Whatever happens, a run records at most once and sends at most once, in that order, under
      the proof it was given; it answers success exactly when something was sent and answered. */
  lemma EffectOrder(cfg: Config, input: ForwardInput, w: World)
    ensures Ordered(Forwarding(cfg, input, w), FeeAttempt(cfg, input, w), input)
  {
    ReachesCharging(cfg, input, w);
    if MayCharge(cfg, input, w) {
      var raw := DecodeAll(input.proof);
      OrderedOnceAccepted(cfg, input, w, Accepted(raw, Summary(cfg.verifier.lib, raw)));
    } else {
      NotChargedNotDelivered(cfg, input, w);
    }
  }

  lemma NotChargedNotDelivered(cfg: Config, input: ForwardInput, w: World)
    requires !MayCharge(cfg, input, w)
    ensures Forwarding(cfg, input, w).result != Failure(NotDelivered)
  {
    VerdictMeans(cfg.verifier, w.verifyParams, w.verifyNow, input.proof);
  }

  /** A run is not all-or-nothing: the fee stays recorded with nothing sent exactly when it was
      recorded and the child then turned out not to be signable. */
  lemma FeeKeptWithoutSending(cfg: Config, input: ForwardInput, w: World)
    requires BuildsWhatItIsGiven(cfg.verifier.lib)
    ensures var run := Forwarding(cfg, input, w);
            (!Sent(run) && run.effects != [] && Last(run.effects).outcome.Success?) <==>
            && MayCharge(cfg, input, w) && input.fee.Some? && FeePaid(cfg, input, w)
            && !Mintable(cfg, input, w)
  {
    EffectOrder(cfg, input, w);
    SendsExactlyWhen(cfg, input, w);
    ReachesCharging(cfg, input, w);
  }

  /** Which reason a run gives for stopping before it has any effect: the first that applies. */
  lemma FirstReasonNotToCharge(cfg: Config, input: ForwardInput, w: World)
    ensures var r := Forwarding(cfg, input, w).result;
            var addressed := TrimSpace(input.downstreamDID) != "" && TrimSpace(input.downstreamEndpoint) != "";
            var asked := addressed && input.envelope != [];
            var accepted := w.verifyParams.Some?
                            && Accepts(cfg.verifier, w.verifyParams.value, w.verifyNow, input.proof);
            && (r == Failure(MissingDownstream) <==> !addressed)
            && (r == Failure(MissingEnvelope) <==> addressed && input.envelope == [])
            && ((r.Failure? && r.error.Inbound?) <==> asked && !accepted)
            && (asked && accepted ==>
                  var leaf := Last(Tokens(cfg.verifier.lib, DecodeAll(input.proof))).payload.caveats;
                  && (r == Failure(NotRedelegable) <==> !leaf.redelegable)
                  && (r == Failure(TargetNotAllowed) <==>
                        leaf.redelegable && !leaf.redelegateTo.Allows(input.downstreamDID)))
            && (r == Failure(NoRecorder) <==> MayCharge(cfg, input, w) && input.fee.Some? && cfg.recorder.None?)
  {
    VerdictMeans(cfg.verifier, w.verifyParams, w.verifyNow, input.proof);
    var accepted := w.verifyParams.Some? && Accepts(cfg.verifier, w.verifyParams.value, w.verifyNow, input.proof);
    if accepted {
      var raw := DecodeAll(input.proof);
      RefusalOnceAccepted(cfg, input, w, Accepted(raw, Summary(cfg.verifier.lib, raw)));
    }
  }

  lemma RefusalOnceAccepted(cfg: Config, input: ForwardInput, w: World, accepted: Accepted)
    requires accepted.raw != [] && accepted.verified.tokens != []
    ensures var r := ChargeMintAndSend(cfg, input, w, accepted).result;
            var leaf := Last(accepted.verified.tokens).payload.caveats;
            var may := leaf.redelegable && leaf.redelegateTo.Allows(input.downstreamDID);
            && (r.Failure? ==> !r.error.MissingDownstream? && !r.error.MissingEnvelope? && !r.error.Inbound?)
            && (r == Failure(NotRedelegable) <==> !leaf.redelegable)
            && (r == Failure(TargetNotAllowed) <==> leaf.redelegable && !may)
            && (r == Failure(NoRecorder) <==> may && input.fee.Some? && cfg.recorder.None?)
  {}

  // -- what a run sends ----------------------------------------------------------------

  /** The child sits directly under the leaf of the accepted chain. */
  ghost predicate IsChild(cfg: Config, input: ForwardInput, w: World, child: Token)
    requires MayCharge(cfg, input, w)
  {
    var lib := cfg.verifier.lib;
    var raw := DecodeAll(input.proof);
    var parent := Last(Tokens(lib, raw)).payload;
    && w.nonce.Some?
    && Narrowed(lib, parent.caveats, input.narrow, w.mintNow) == Success(child.payload.caveats)
    && AtMost(child.payload.caveats, parent.caveats)
    && parent.caveats.redelegateTo.Allows(child.payload.audience)
    && child.payload == Payload(parent.chainID, parent.root, parent.rootEpoch, cfg.agentID,
                                TrimSpace(input.downstreamDID), lib.sha256(Last(raw)), parent.depth + 1,
                                child.payload.caveats, w.nonce.value)
    && child.sig == cfg.sign(child.payload)
  }

  lemma MintedChild(cfg: Config, input: ForwardInput, w: World) returns (child: Token)
    requires MayCharge(cfg, input, w)
    requires var raw := DecodeAll(input.proof);
             Mint(cfg, input, w, Accepted(raw, Summary(cfg.verifier.lib, raw))).Success?
    ensures IsChild(cfg, input, w, child)
    ensures var raw := DecodeAll(input.proof);
            Mint(cfg, input, w, Accepted(raw, Summary(cfg.verifier.lib, raw))).value
            == (child, cfg.verifier.lib.marshal(child))
  {
    var raw := DecodeAll(input.proof);
    child := Mint(cfg, input, w, Accepted(raw, Summary(cfg.verifier.lib, raw))).value.0;
  }

  lemma SentChild(cfg: Config, input: ForwardInput, w: World) returns (child: Token)
    requires Sent(Forwarding(cfg, input, w))
    ensures MayCharge(cfg, input, w) && IsChild(cfg, input, w, child)
    ensures Last(Forwarding(cfg, input, w).effects).tokens
            == input.proof + [Base64.Encode(cfg.verifier.lib.marshal(child))]
  {
    ReachesCharging(cfg, input, w);
    var raw := DecodeAll(input.proof);
    SendsOnceAccepted(cfg, input, w, Accepted(raw, Summary(cfg.verifier.lib, raw)));
    child := MintedChild(cfg, input, w);
  }

  /** The downstream decodes the inbound bytes unchanged, followed by the child's: the bytes the
      child commits to are the ones it arrives with. */
  lemma TransportKeepsBytes(lib: Library, proof: seq<string>, child: Token)
    requires AllBase64(proof)
    ensures AllBase64(proof + [Base64.Encode(lib.marshal(child))])
    ensures DecodeAll(proof + [Base64.Encode(lib.marshal(child))]) == DecodeAll(proof) + [lib.marshal(child)]
  {
    Base64.RoundTrip(lib.marshal(child));
    var longer := proof + [Base64.Encode(lib.marshal(child))];
    forall i | 0 <= i < |longer| ensures Base64.Decode(longer[i]).Some? {
      if i < |proof| {
        assert longer[i] == proof[i];
      }
    }
    assert DecodeAll(longer) == DecodeAll(proof) + [lib.marshal(child)];
  }

  /** The deployment signs with the key its own id resolves to, and verifies under that id. */
  ghost predicate WiredAsOne(cfg: Config) {
    && cfg.agentID == cfg.verifier.agentID
    && SignsFor(cfg.verifier.lib, cfg.verifier.resolver, cfg.sign, cfg.agentID)
  }

  /** The verifier some agent runs, over the same library, chain and key directory. */
  function Peer(v: Verifier, agentID: string): Verifier {
    v.(agentID := agentID)
  }

  /** The chain a run sends is accepted by exactly one agent, the one named (trimmed), and exactly
      as long as the inbound chain still is here, the child has not expired and there is depth
      for one more token; it then grants the narrowed caveats on the same account. */
  lemma ForwardedAcceptedExactly(cfg: Config, input: ForwardInput, w: World, agent: string, params: Params, now: int64)
    returns (child: Token)
    requires Sent(Forwarding(cfg, input, w)) && WiredAsOne(cfg) && RoundTrips(cfg.verifier.lib)
    ensures MayCharge(cfg, input, w) && IsChild(cfg, input, w, child)
    ensures var tokens := Last(Forwarding(cfg, input, w).effects).tokens;
            Accepts(Peer(cfg.verifier, agent), params, now, tokens) <==>
            && agent == TrimSpace(input.downstreamDID)
            && Accepts(cfg.verifier, params, now, input.proof)
            && |input.proof| + 1 <= params.maxDepth
            && |input.proof| + 1 <= child.payload.caveats.maxDepth
            && now < child.payload.caveats.expires
    ensures var tokens := Last(Forwarding(cfg, input, w).effects).tokens;
            var peer := Peer(cfg.verifier, agent);
            Verdict(peer, Some(params), now, tokens).Success? ==>
              var verified := Verdict(peer, Some(params), now, tokens).value.verified;
              && verified.effective == child.payload.caveats
              && verified.principal == Summary(cfg.verifier.lib, DecodeAll(input.proof)).principal
  {
    child := SentChild(cfg, input, w);
    var lib, res := cfg.verifier.lib, cfg.verifier.resolver;
    var raw := DecodeAll(input.proof);
    var encoded := lib.marshal(child);
    var tokens := input.proof + [Base64.Encode(encoded)];
    TransportKeepsBytes(lib, input.proof, child);
    var opts := Opts(Peer(cfg.verifier, agent), params, now);
    var parent := Last(Tokens(lib, raw));
    assert parent.payload.audience == cfg.agentID;
    Chains.MintedAcceptedExactly(lib, res, opts, raw, cfg.sign, TrimSpace(input.downstreamDID),
                                 child.payload.caveats, w.nonce.value);
    assert Chains.Addressed(opts, cfg.agentID) == Opts(cfg.verifier, params, now);
    VerdictMeans(Peer(cfg.verifier, agent), Some(params), now, tokens);
    if Accepts(Peer(cfg.verifier, agent), params, now, tokens) {
      assert Last(Tokens(lib, raw + [encoded])) == child;
    }
  }

  /** One hop only: no proof that carries a sent child anywhere but at its end is ever accepted,
      by anyone, under any keys, ceilings or clock, whoever crafted the rest. */
  lemma NothingExtendsASentChild(cfg: Config, input: ForwardInput, w: World, v: Verifier, params: Params,
                                 now: int64, proof: seq<string>, i: nat)
    returns (child: Token)
    requires Sent(Forwarding(cfg, input, w)) && RoundTrips(cfg.verifier.lib)
    requires v.lib == cfg.verifier.lib
    ensures Last(Forwarding(cfg, input, w).effects).tokens
            == input.proof + [Base64.Encode(cfg.verifier.lib.marshal(child))]
    ensures i < |proof| - 1 && Base64.Decode(proof[i]) == Some(v.lib.marshal(child)) ==>
              !Accepts(v, params, now, proof)
  {
    child := SentChild(cfg, input, w);
    if i < |proof| - 1 && Base64.Decode(proof[i]) == Some(v.lib.marshal(child)) && Accepts(v, params, now, proof) {
      var raw := DecodeAll(proof);
      assert raw[i] == v.lib.marshal(child);
      assert Tokens(v.lib, raw)[i] == child;
      Chains.NothingFollowsAClosedToken(v.lib, v.resolver, Opts(v, params, now), raw, i);
    }
  }

  /** What any verifier that accepts the sent chain finds granted is exactly what was named, and the
      accepted credential's own where nothing was. */
  lemma DownstreamHoldsWhatWasNamed(cfg: Config, input: ForwardInput, w: World, v: Verifier, params: Params, now: int64)
    requires Sent(Forwarding(cfg, input, w)) && RoundTrips(cfg.verifier.lib) && v.lib == cfg.verifier.lib
    requires BuildsWhatItIsGiven(cfg.verifier.lib)
    requires Accepts(v, params, now, Last(Forwarding(cfg, input, w).effects).tokens)
    ensures MayCharge(cfg, input, w)
    ensures var tokens := Last(Forwarding(cfg, input, w).effects).tokens;
            HoldsWhatWasNamed(Summary(v.lib, DecodeAll(tokens)).effective,
                              Last(Tokens(v.lib, DecodeAll(input.proof))).payload.caveats, input.narrow, w.mintNow)
  {
    var child := SentChild(cfg, input, w);
    TransportKeepsBytes(v.lib, input.proof, child);
    var received := DecodeAll(input.proof) + [v.lib.marshal(child)];
    assert Last(Tokens(v.lib, received)) == child;
    NamedIsHeld(v.lib, Last(Tokens(v.lib, DecodeAll(input.proof))).payload.caveats, input.narrow, w.mintNow);
  }

  // -- what a run answers --------------------------------------------------------------------

  /** A run that answers success reports what every verifier of the sent chain will find in it:
      whose account, how many tokens, what is granted; and a fee exactly when one was recorded. */
  lemma ReportIsWhatDownstreamFinds(cfg: Config, input: ForwardInput, w: World, v: Verifier, params: Params, now: int64)
    requires Forwarding(cfg, input, w).result.Success? && RoundTrips(cfg.verifier.lib)
    requires v.lib == cfg.verifier.lib
    ensures Sent(Forwarding(cfg, input, w))
    ensures var out := Forwarding(cfg, input, w).result.value;
            var verdict := Verdict(v, Some(params), now, Last(Forwarding(cfg, input, w).effects).tokens);
            verdict.Success? ==>
              var verified := verdict.value.verified;
              && out.principal == verified.principal
              && out.depth == |verified.tokens|
              && Describes(out.childGrant, verified.effective)
    ensures var run := Forwarding(cfg, input, w);
            && run.result.value.recorded == input.fee
            && Last(run.effects).reply == Some(run.result.value.reply)
            && (input.fee.Some? <==> |run.effects| == 2)
  {
    EffectOrder(cfg, input, w);
    var child := SentChild(cfg, input, w);
    ReportOnceAccepted(cfg, input, w);
    GrantViewDescribes(child.payload.caveats);
    var tokens := input.proof + [Base64.Encode(cfg.verifier.lib.marshal(child))];
    TransportKeepsBytes(v.lib, input.proof, child);
    VerdictMeans(v, Some(params), now, tokens);
    if Verdict(v, Some(params), now, tokens).Success? {
      var ts := Tokens(v.lib, DecodeAll(tokens));
      assert Last(ts) == child;
    }
  }

  lemma ReportOnceAccepted(cfg: Config, input: ForwardInput, w: World)
    requires Forwarding(cfg, input, w).result.Success?
    ensures MayCharge(cfg, input, w)
    ensures var raw := DecodeAll(input.proof);
            var minted := Mint(cfg, input, w, Accepted(raw, Summary(cfg.verifier.lib, raw)));
            var run := Forwarding(cfg, input, w);
            && minted.Success? && Sent(run)
            && run.result.value == ForwardOutput(Summary(cfg.verifier.lib, raw).principal, |input.proof| + 1,
                                                 GrantView(minted.value.0.payload.caveats), input.fee,
                                                 run.result.value.reply)
            && Last(run.effects).tokens == input.proof + [Base64.Encode(minted.value.1)]
            && Last(run.effects).reply == Some(run.result.value.reply)
  {
    ReachesCharging(cfg, input, w);
  }

  // -- the fee and the child name the same order ------------------------------------------

  /** A fee charged on the way names the settlement order, and the account, that the forwarded
      child carries, and credits this agent. */
  lemma FeeAndChildShareTheOrder(cfg: Config, input: ForwardInput, w: World) returns (child: Token, msg: MsgRecordSpend)
    requires Sent(Forwarding(cfg, input, w)) && input.fee.Some?
    ensures MayCharge(cfg, input, w) && IsChild(cfg, input, w, child)
    ensures cfg.recorder.Some?
    ensures Forwarding(cfg, input, w).effects[0] == Record(input.proof, input.fee.value, Success(msg))
    ensures cfg.recorder.value.parseId(child.payload.caveats.settlement) == Some(msg.settlementId)
    ensures msg.principal == child.payload.caveats.principal
    ensures msg.agentId == cfg.verifier.agentID
    ensures msg.amount.denom == input.fee.value.denom
    ensures cfg.recorder.value.parseInt(input.fee.value.amount) == Some(msg.amount.amount)
    ensures var leaf := Last(Tokens(cfg.verifier.lib, DecodeAll(input.proof))).payload.caveats;
            && w.executed && w.recordParams.Some?
            && Accepts(cfg.verifier, w.recordParams.value, w.recordNow, input.proof)
            && "settlement.record_spend" in leaf.actions && 0 in leaf.subaccounts
  {
    child := SentChild(cfg, input, w);
    EffectOrder(cfg, input, w);
    FeeIsRecorded(cfg, input, w);
    msg := RecordAttempt(cfg, input, w).outcome.value;
    var m := cfg.recorder.value;
    var p := RecordParams("", input.fee.value);
    VerdictMeans(cfg.verifier, w.recordParams, w.recordNow, input.proof);
    RecordsExactlyWhen(m, cfg.verifier, w.recordParams.value, w.recordNow, input.proof, p, msg);
  }

  lemma FeeIsRecorded(cfg: Config, input: ForwardInput, w: World)
    requires Sent(Forwarding(cfg, input, w)) && input.fee.Some?
    ensures cfg.recorder.Some? && RecordAttempt(cfg, input, w).outcome.Success?
    ensures w.executed
  {
    ReachesCharging(cfg, input, w);
  }
}
