/** The user's emergency stop: one root, every credential under it, at every hop. */
module EmergencyStop {
  import opened Prelude
  import opened Svpdt
  import opened Verification
  import opened RootStates
  import opened RootStateMachine
  import Intermediary
  import opened Forwards
  import Chains

  /** This call checks the root and epoch that a verified chain reports. */
  predicate Checks(call: Call, verified: Verified) {
    call.root == verified.root && call.epoch == verified.rootEpoch
  }

  /** From state k of an agent's run on, the chain no longer grants what the user's token names. */
  predicate Stopped(run: Run, k: nat, user: Payload) {
    forall j | k <= j < |run.states| :: !Grants(run.states[j].chain, user.root, user.rootEpoch)
  }

  /** Once the user's root is stopped, every chain of any length that begins with the user's token
      is refused at every agent, however many other calls it serves: whoever accepts the chain, no
      check of it that starts a cache lifetime plus one latency later passes. */
  lemma StopReachesEveryChain(lib: Library, res: Resolver, opts: VerifyOpts, raw: seq<Bytes>, user: Token,
                              latency: nat, run: Run, k: nat, i: nat, id: nat)
    requires AcceptsRaw(lib, res, opts, raw) && lib.unmarshal(raw[0]) == Some(user)
    requires IsRun(latency, run) && k <= i < |run.states| && Stopped(run, k, user.payload)
    requires id in run.states[i].calls && Checks(run.states[i].calls[id], Summary(lib, raw))
    requires run.states[i].calls[id].started >= run.states[k].now + EPOCH_CACHE_TTL + latency
    ensures run.states[i].calls[id].phase != Done(Passed)
  {
    Chains.SameRoot(lib, res, opts, raw, 0);
    RevocationBound(latency, run, k, i, id);
  }

  /** The same for a chain another agent sent on: stopping the root of the chain it received stops
      the one it sent, at whoever accepts that. */
  lemma StopReachesForwarded(cfg: Intermediary.Config, input: Intermediary.ForwardInput, w: Intermediary.World,
                             v: Verifier, params: Params, now: int64,
                             latency: nat, run: Run, k: nat, i: nat, id: nat)
    requires Sent(Intermediary.Forwarding(cfg, input, w)) && RoundTrips(cfg.verifier.lib) && v.lib == cfg.verifier.lib
    requires Accepts(v, params, now, Last(Intermediary.Forwarding(cfg, input, w).effects).tokens)
    requires IsRun(latency, run) && k <= i < |run.states| && id in run.states[i].calls
    requires MayCharge(cfg, input, w)
             && Stopped(run, k, Tokens(v.lib, DecodeAll(input.proof))[0].payload)
    requires var received := DecodeAll(Last(Intermediary.Forwarding(cfg, input, w).effects).tokens);
             Checks(run.states[i].calls[id], Summary(v.lib, received))
    requires run.states[i].calls[id].started >= run.states[k].now + EPOCH_CACHE_TTL + latency
    ensures run.states[i].calls[id].phase != Done(Passed)
  {
    var child := SentChild(cfg, input, w);
    TransportKeepsBytes(v.lib, input.proof, child);
    var raw := DecodeAll(input.proof);
    var received := raw + [v.lib.marshal(child)];
    assert received[0] == raw[0];
    StopReachesEveryChain(v.lib, v.resolver, Opts(v, params, now), received, Tokens(v.lib, raw)[0],
                          latency, run, k, i, id);
  }
}
