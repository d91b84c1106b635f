/** delegated.Service.verifyProof: decode, verify the chain, check every redelegation target. */
module Verification {
  import opened Prelude
  import opened Caveats
  import opened Svpdt
  import Base64

  /** The ceilings read from the chain's agentwallet module. */
  datatype Params = Params(maxDepth: nat, maxTTLSeconds: nat)

  /** Who verifies: the audience credentials must name, the chain, and where keys come from. */
  datatype Verifier = Verifier(lib: Library, resolver: Resolver, chainID: string, agentID: string)

  datatype ProofError =
    | NoProof
    | NotBase64(index: nat)
    | ParamsUnavailable
    | ChainRejected
    | TargetRefused(depth: nat)

  datatype Accepted = Accepted(raw: seq<Bytes>, verified: Verified)

  function Opts(v: Verifier, params: Params, now: int64): VerifyOpts {
    VerifyOpts(v.chainID, now, params.maxDepth, params.maxTTLSeconds, v.agentID)
  }

  predicate AllBase64(proof: seq<string>) {
    forall i | 0 <= i < |proof| :: Base64.Decode(proof[i]).Some?
  }

  function DecodeAll(proof: seq<string>): (raw: seq<Bytes>)
    requires AllBase64(proof)
    ensures |raw| == |proof|
    ensures forall i :: 0 <= i < |raw| ==> raw[i] == Base64.Decode(proof[i]).value
  {
    seq(|proof|, i requires 0 <= i < |proof| => Base64.Decode(proof[i]).value)
  }

  /** Every audience is one its parent's redelegate_to names. */
  predicate TargetsAllowed(ts: seq<Token>) {
    forall i | 0 < i < |ts| ::
      ts[i - 1].payload.caveats.redelegateTo.Allows(ts[i].payload.audience)
  }

  /** What the service accepts, before any text is involved. */
  predicate AcceptsRaw(lib: Library, res: Resolver, opts: VerifyOpts, raw: seq<Bytes>) {
    ChainValid(lib, res, opts, raw) && TargetsAllowed(Tokens(lib, raw))
  }

  predicate Accepts(v: Verifier, params: Params, now: int64, proof: seq<string>) {
    && AllBase64(proof)
    && AcceptsRaw(v.lib, v.resolver, Opts(v, params, now), DecodeAll(proof))
  }

  function FirstUndecodable(proof: seq<string>, i: nat): Option<nat>
    decreases |proof| - i
  {
    if i >= |proof| then None
    else if Base64.Decode(proof[i]).None? then Some(i)
    else FirstUndecodable(proof, i + 1)
  }

  /** The depth of the first token its parent does not allow to be addressed as it is. */
  function FirstRefused(ts: seq<Token>, i: nat): Option<nat>
    requires 1 <= i
    decreases |ts| - i
  {
    if i >= |ts| then None
    else if !ts[i - 1].payload.caveats.redelegateTo.Allows(ts[i].payload.audience) then Some(i + 1)
    else FirstRefused(ts, i + 1)
  }

  lemma {:induction false} FirstUndecodableFinds(proof: seq<string>, i: nat)
    requires forall j :: 0 <= j < i && j < |proof| ==> Base64.Decode(proof[j]).Some?
    ensures FirstUndecodable(proof, i).None? <==> AllBase64(proof)
    decreases |proof| - i
  {
    if i < |proof| && Base64.Decode(proof[i]).Some? {
      FirstUndecodableFinds(proof, i + 1);
    }
  }

  lemma {:induction false} FirstRefusedFinds(ts: seq<Token>, i: nat)
    requires 1 <= i
    requires forall j | 0 < j < i && j < |ts| ::
               ts[j - 1].payload.caveats.redelegateTo.Allows(ts[j].payload.audience)
    ensures FirstRefused(ts, i).None? <==> TargetsAllowed(ts)
    decreases |ts| - i
  {
    if i < |ts| && ts[i - 1].payload.caveats.redelegateTo.Allows(ts[i].payload.audience) {
      FirstRefusedFinds(ts, i + 1);
    }
  }

  /** The verdict on a proof, with the first reason to refuse it. */
  function Verdict(v: Verifier, params: Option<Params>, now: int64, proof: seq<string>)
    : Result<Accepted, ProofError>
  {
    if proof == [] then Failure(NoProof)
    else if FirstUndecodable(proof, 0).Some? then Failure(NotBase64(FirstUndecodable(proof, 0).value))
    else if params.None? then Failure(ParamsUnavailable)
    else
      FirstUndecodableFinds(proof, 0);
      var raw := DecodeAll(proof);
      match VerifyChain(v.lib, v.resolver, Opts(v, params.value, now), raw)
      case None => Failure(ChainRejected)
      case Some(verified) =>
        if FirstRefused(verified.tokens, 1).Some?
        then Failure(TargetRefused(FirstRefused(verified.tokens, 1).value))
        else Success(Accepted(raw, verified))
  }

  method CheckRedelegationTargets(verified: Verified) returns (refused: Option<nat>)
    ensures refused.None? <==> TargetsAllowed(verified.tokens)
    ensures refused == FirstRefused(verified.tokens, 1)
    ensures refused.Some? ==>
              var ts, depth := verified.tokens, refused.value;
              && 2 <= depth <= |ts|
              && !ts[depth - 2].payload.caveats.redelegateTo.Allows(ts[depth - 1].payload.audience)
              && forall i | 0 < i < depth - 1 ::
                   ts[i - 1].payload.caveats.redelegateTo.Allows(ts[i].payload.audience)
  {
    FirstRefusedFinds(verified.tokens, 1);
    var i := 1;
    while i < |verified.tokens|
      invariant 1 <= i
      invariant forall j | 0 < j < i && j < |verified.tokens| ::
                  verified.tokens[j - 1].payload.caveats.redelegateTo.Allows(verified.tokens[j].payload.audience)
      invariant FirstRefused(verified.tokens, 1) == FirstRefused(verified.tokens, i)
    {
      var parent := verified.tokens[i - 1].payload;
      var child := verified.tokens[i].payload;
      if !parent.caveats.redelegateTo.Allows(child.audience) {
        return Some(i + 1);
      }
      i := i + 1;
    }
    return None;
  }

  method VerifyProof(v: Verifier, params: Option<Params>, now: int64, proof: seq<string>)
    returns (r: Result<Accepted, ProofError>)
    ensures r == Verdict(v, params, now, proof)
    ensures r == Failure(NoProof) <==> proof == []
    ensures r.Failure? && r.error.NotBase64? ==>
              && r.error.index < |proof| && Base64.Decode(proof[r.error.index]).None?
              && forall j :: 0 <= j < r.error.index ==> Base64.Decode(proof[j]).Some?
    ensures r == Failure(ParamsUnavailable) <==> proof != [] && AllBase64(proof) && params.None?
    ensures r.Success? <==> params.Some? && Accepts(v, params.value, now, proof)
  {
    FirstUndecodableFinds(proof, 0);
    if |proof| == 0 {
      return Failure(NoProof);
    }
    var tokens: seq<Bytes> := [];
    var i := 0;
    while i < |proof|
      invariant 0 <= i <= |proof| && |tokens| == i
      invariant forall j :: 0 <= j < i ==> Base64.Decode(proof[j]) == Some(tokens[j])
      invariant FirstUndecodable(proof, 0) == FirstUndecodable(proof, i)
    {
      var raw := Base64.Decode(proof[i]);
      if raw.None? {
        return Failure(NotBase64(i));
      }
      tokens := tokens + [raw.value];
      i := i + 1;
    }
    assert tokens == DecodeAll(proof);
    if params.None? {
      return Failure(ParamsUnavailable);
    }
    var verified := VerifyChain(v.lib, v.resolver, Opts(v, params.value, now), tokens);
    if verified.None? {
      return Failure(ChainRejected);
    }
    var refused := CheckRedelegationTargets(verified.value);
    if refused.Some? {
      return Failure(TargetRefused(refused.value));
    }
    return Success(Accepted(tokens, verified.value));
  }

  /** Acceptance is decided by Accepts, and reports exactly the decoded chain. */
  lemma VerdictMeans(v: Verifier, params: Option<Params>, now: int64, proof: seq<string>)
    ensures Verdict(v, params, now, proof).Success? <==> params.Some? && Accepts(v, params.value, now, proof)
    ensures Verdict(v, params, now, proof).Success? ==>
              && AllBase64(proof) && Parses(v.lib, DecodeAll(proof)) && proof != []
              && Verdict(v, params, now, proof).value
                 == Accepted(DecodeAll(proof), Summary(v.lib, DecodeAll(proof)))
  {
    FirstUndecodableFinds(proof, 0);
    if params.Some? && proof != [] && AllBase64(proof) {
      var raw := DecodeAll(proof);
      if Parses(v.lib, raw) {
        FirstRefusedFinds(Tokens(v.lib, raw), 1);
      }
    }
  }

  /** What the verifier and the chain's ceilings ask of one token of a chain, given the bytes and
      the token above it. Position counts from one. */
  ghost predicate TokenStands(v: Verifier, params: Params, now: int64, ts: seq<Token>, raw: seq<Bytes>, i: nat)
    requires i < |ts| == |raw|
  {
    var p := ts[i].payload;
    && p.chainID == v.chainID
    && p.depth == i + 1 && i + 1 <= p.caveats.maxDepth
    && p.caveats.notBefore <= now < p.caveats.expires
    && (params.maxTTLSeconds > 0 ==> p.caveats.expires - p.caveats.notBefore <= params.maxTTLSeconds)
    && (exists key :: v.resolver(p.issuer).Some? && key in v.resolver(p.issuer).value
                      && v.lib.sigValid(key, p, ts[i].sig))
    && (0 < i ==>
          var parent := ts[i - 1].payload;
          && p.proof == v.lib.sha256(raw[i - 1]) && p.issuer == parent.audience
          && p.root == parent.root && p.rootEpoch == parent.rootEpoch
          && AtMost(p.caveats, parent.caveats)
          && (parent.caveats.redelegateTo.Anyone? || p.audience in parent.caveats.redelegateTo.dids)
          && (v.lib.refusesUnredelegable ==> parent.caveats.redelegable))
  }

  /** A proof that decodes to tokens is accepted exactly when each of them stands, there are some
      and no more than the chain's ceiling, and the last is addressed to this verifier. */
  lemma AcceptsExactlyWhen(v: Verifier, params: Params, now: int64, proof: seq<string>, raw: seq<Bytes>, ts: seq<Token>)
    requires |proof| == |raw| == |ts|
    requires forall i :: 0 <= i < |proof| ==>
               Base64.Decode(proof[i]) == Some(raw[i]) && v.lib.unmarshal(raw[i]) == Some(ts[i])
    ensures Accepts(v, params, now, proof) <==>
            && 0 < |proof| <= params.maxDepth
            && (forall i: nat | i < |ts| :: TokenStands(v, params, now, ts, raw, i))
            && Last(ts).payload.audience == v.agentID
  {
    assert AllBase64(proof) && DecodeAll(proof) == raw;
    assert Parses(v.lib, raw) && Tokens(v.lib, raw) == ts;
    var opts := Opts(v, params, now);
    if Accepts(v, params, now, proof) {
      forall i: nat | i < |ts| ensures TokenStands(v, params, now, ts, raw, i) {
        assert TokenValid(v.lib, v.resolver, opts, i + 1, ts[i]);
        assert 0 < i ==> Linked(v.lib, raw[i - 1], ts[i - 1], ts[i]);
      }
    } else if 0 < |proof| <= params.maxDepth && (forall i: nat | i < |ts| :: TokenStands(v, params, now, ts, raw, i)) {
      forall i: nat | i < |ts|
        ensures TokenValid(v.lib, v.resolver, opts, i + 1, ts[i])
        ensures 0 < i ==> Linked(v.lib, raw[i - 1], ts[i - 1], ts[i])
        ensures 0 < i ==> ts[i - 1].payload.caveats.redelegateTo.Allows(ts[i].payload.audience)
      {
        assert TokenStands(v, params, now, ts, raw, i);
      }
      assert AllValid(v.lib, v.resolver, opts, ts) && AllLinked(v.lib, raw, ts) && TargetsAllowed(ts);
    }
  }

  /** An accepted proof decodes to tokens that keep every ceiling of the chain it was checked
      against, and what is reported of it is the last token's own. */
  lemma AcceptedKeepsCeilings(v: Verifier, params: Params, now: int64, proof: seq<string>, i: nat)
    requires Accepts(v, params, now, proof) && i < |proof|
    ensures var raw := DecodeAll(proof);
            var ts := Tokens(v.lib, raw);
            var c := ts[i].payload.caveats;
            && |proof| <= params.maxDepth
            && (params.maxTTLSeconds > 0 ==> c.expires - c.notBefore <= params.maxTTLSeconds)
            && ts[i].payload.chainID == v.chainID
            && c.notBefore <= now < c.expires
            && Last(ts).payload.audience == v.agentID
    ensures var raw := DecodeAll(proof);
            var leaf := Last(Tokens(v.lib, raw)).payload;
            && Verdict(v, Some(params), now, proof).Success?
            && var verified := Verdict(v, Some(params), now, proof).value.verified;
               && verified.tokens == Tokens(v.lib, raw) && verified.effective == leaf.caveats
               && verified.principal == leaf.caveats.principal && verified.leafExp == leaf.caveats.expires
               && verified.root == leaf.root && verified.rootEpoch == leaf.rootEpoch
               && verified.chainHash == v.lib.chainHash(raw)
  {
    var raw := DecodeAll(proof);
    AcceptsExactlyWhen(v, params, now, proof, raw, Tokens(v.lib, raw));
    assert TokenStands(v, params, now, Tokens(v.lib, raw), raw, i);
    VerdictMeans(v, Some(params), now, proof);
  }

  /** preflight: the action and the subaccount are inside the grant. */
  predicate Preflight(verified: Verified, action: string, subaccount: uint32) {
    action in verified.effective.actions && subaccount in verified.effective.subaccounts
  }
}
